/** What one accepted operation does to the ledger: the facts every block proof rests on. */
module Effects {
  import opened Prelude
  import opened Feeers
  import opened StateKeys
  import opened AccountKeys
  import opened Facts
  import opened AmountStates
  import opened Ledgers

  // ---------------------------------------------------------------- supply

  ghost function AmountIn(m: map<BalanceKey, int>, c: CurrencyID): BalanceKey -> int {
    k => if k in m && k.cid == c then m[k] else 0
  }

  /** The sum of all balances in currency c. */
  ghost function Supply(m: map<BalanceKey, int>, c: CurrencyID): int {
    Sum(m.Keys, AmountIn(m, c))
  }

  lemma SupplyWithout(m: map<BalanceKey, int>, c: CurrencyID, k: BalanceKey)
    ensures var rest := set j | j in m && j.cid == c && j != k;
            Supply(m, c) == Sum(rest, AmountIn(m, c)) + AmountIn(m, c)(k)
  {
    var f := AmountIn(m, c);
    var rest := set j | j in m && j.cid == c && j != k;
    if k in m && k.cid == c {
      SumSupport(m.Keys, rest + {k}, f);
      SumInsert(rest, f, k);
    } else {
      SumSupport(m.Keys, rest, f);
    }
  }

  /** Maps that agree in currency c except at k differ in supply by what they hold at k. */
  lemma SupplyChange(m: map<BalanceKey, int>, n: map<BalanceKey, int>, c: CurrencyID, k: BalanceKey)
    requires forall j: BalanceKey :: j.cid == c && j != k ==> (j in m <==> j in n) && (j in m ==> m[j] == n[j])
    ensures Supply(n, c) - AmountIn(n, c)(k) == Supply(m, c) - AmountIn(m, c)(k)
  {
    SupplyWithout(m, c, k);
    SupplyWithout(n, c, k);
    var rest := set j | j in m && j.cid == c && j != k;
    assert rest == set j | j in n && j.cid == c && j != k;
    SumCongruent(rest, AmountIn(m, c), AmountIn(n, c));
  }

  lemma SupplyOfNothing(m: map<BalanceKey, int>, c: CurrencyID)
    requires forall k :: k in m ==> k.cid != c
    ensures Supply(m, c) == 0
  {
    SumZero(m.Keys, AmountIn(m, c));
  }

  ghost function FeesOf(bal: Balances): map<BalanceKey, int> {
    map k | k in bal :: bal[k].fee
  }

  /** Writing deltas moves the supply by their sum. */
  lemma {:induction false} SupplyAfter(bal: Balances, snapshot: map<BalanceKey, int>, sts: seq<AmountState>, c: CurrencyID)
    requires Sourced(sts, snapshot)
    ensures Supply(snapshot + Values(PostAll(bal, sts)), c) == Supply(snapshot + Values(bal), c) + AddIn(sts, c)
  {
    if sts != [] {
      var front, st := sts[..|sts| - 1], sts[|sts| - 1];
      assert sts == front + [st];
      assert st in sts;
      SupplyAfter(bal, snapshot, front, c);
      SupplyAfterOne(PostAll(bal, front), snapshot, st, c);
    }
  }

  lemma SupplyAfterOne(bal: Balances, snapshot: map<BalanceKey, int>, st: AmountState, c: CurrencyID)
    requires st.value == Lookup(snapshot, st.key)
    ensures Supply(snapshot + Values(Post(bal, st)), c) ==
            Supply(snapshot + Values(bal), c) + if st.key.cid == c then st.add else 0
  {
    SupplyChange(snapshot + Values(bal), snapshot + Values(Post(bal, st)), c, st.key);
  }

  /** The fee fields of the written states grow by the fees of the writes. */
  lemma {:induction false} FeesAfter(bal: Balances, sts: seq<AmountState>, c: CurrencyID)
    ensures Supply(FeesOf(PostAll(bal, sts)), c) == Supply(FeesOf(bal), c) + FeeIn(sts, c)
  {
    if sts != [] {
      var front, st := sts[..|sts| - 1], sts[|sts| - 1];
      FeesAfter(bal, front, c);
      SupplyChange(FeesOf(PostAll(bal, front)), FeesOf(Post(PostAll(bal, front), st)), c, st.key);
    }
  }

  // ---------------------------------------------------------------- a good ledger

  ghost predicate GoodDesign(l: Ledger, c: CurrencyID)
    requires c in l.designs
  {
    var de := l.designs[c];
    && de.IsValid() && de.cid == c
    && (de.policy.feeer.Receiver().Some? ==> de.policy.feeer.Receiver().value in l.accounts)
    && Supply(l.balances, c) == de.supply
  }

  /**
    Every registered currency is fully accounted for; balances are non-negative, in registered
    currencies and held by existing accounts; every account can be signed for; fee payees exist.
  */
  ghost predicate Good(l: Ledger) {
    && (forall c :: c in l.designs ==> GoodDesign(l, c))
    && (forall k :: k in l.balances ==> k.cid in l.designs && k.addr in l.accounts && l.balances[k] >= 0)
    && (forall a :: a in l.accounts ==> l.accounts[a].address == a && Valid(l.accounts[a].keys))
  }

  /** The currency pool shows the designs of the snapshot. */
  ghost predicate GoodEnv(env: Env) {
    Good(env.base) && env.cp == env.base.designs
  }

  ghost function MintedBy(c: CurrencyID): Op -> int {
    (op: Op) => if op.CurrencyRegister? && op.design.cid == c then op.design.supply else 0
  }

  // ---------------------------------------------------------------- payments

  lemma {:induction false} FlattenMeaning(ps: seq<Payment>, pay: Pay)
    requires pay in Flatten(ps)
    ensures exists p :: p in ps && p.to == pay.to && pay.am in p.amounts
  {
    var front, last := ps[..|ps| - 1], ps[|ps| - 1];
    if pay in Flatten(front) {
      FlattenMeaning(front, pay);
    } else {
      assert pay in PaysOf(last);
      assert last in ps;
    }
  }

  lemma {:induction false} FlattenContains(ps: seq<Payment>, p: Payment, am: Amount)
    requires p in ps && am in p.amounts
    ensures Pay(p.to, am) in Flatten(ps)
  {
    var front, last := ps[..|ps| - 1], ps[|ps| - 1];
    assert ps == front + [last];
    if p in front {
      FlattenContains(front, p, am);
    } else {
      var j :| 0 <= j < |p.amounts| && p.amounts[j] == am;
      assert PaysOf(p)[j] == Pay(p.to, am);
    }
  }

  lemma Appended(sts: seq<AmountState>, x: AmountState, k: BalanceKey)
    ensures AddAt(sts + [x], k) == AddAt(sts, k) + if x.key == k then x.add else 0
    ensures FeeAt(sts + [x], k) == FeeAt(sts, k) + if x.key == k then x.fee else 0
    ensures AddIn(sts + [x], k.cid) == AddIn(sts, k.cid) + if x.key.cid == k.cid then x.add else 0
    ensures FeeIn(sts + [x], k.cid) == FeeIn(sts, k.cid) + if x.key.cid == k.cid then x.fee else 0
  {
    assert (sts + [x])[..|sts|] == sts;
  }

  lemma {:induction false} PayWritesMeaning(env: Env, payer: Address, pays: seq<Pay>, k: BalanceKey)
    ensures var sts := PayWrites(env, payer, pays);
            && AddAt(sts, k) == Credited(pays, k) - (if k.addr == payer then Owed(env.cp, pays, k.cid) else 0)
            && FeeAt(sts, k) == (if k.addr == payer then FeesOwed(env.cp, pays, k.cid) else 0)
            && FeeIn(sts, k.cid) == FeesOwed(env.cp, pays, k.cid)
            && AddIn(sts, k.cid) + FeeIn(sts, k.cid) == 0
  {
    if pays != [] {
      var front, pay := pays[..|pays| - 1], pays[|pays| - 1];
      PayWritesMeaning(env, payer, front, k);
      Appended(PayWrites(env, payer, front), Credit(env.base, pay), k);
      Appended(PayWrites(env, payer, front) + [Credit(env.base, pay)], Debit(env, payer, pay.am), k);
    }
  }

  /** Every write is the credit or the debit of some payment. */
  lemma {:induction false} PayWritesMembers(env: Env, payer: Address, pays: seq<Pay>, st: AmountState)
    ensures st in PayWrites(env, payer, pays) <==>
            exists pay :: pay in pays && (st == Credit(env.base, pay) || st == Debit(env, payer, pay.am))
  {
    if pays != [] {
      var front, pay := pays[..|pays| - 1], pays[|pays| - 1];
      assert pays == front + [pay];
      PayWritesMembers(env, payer, front, st);
    }
  }

  lemma {:induction false} CreditedNonNegative(pays: seq<Pay>, k: BalanceKey)
    requires forall pay :: pay in pays ==> pay.am.big >= 0
    ensures Credited(pays, k) >= 0
  {
    if pays != [] {
      assert pays == pays[..|pays| - 1] + [pays[|pays| - 1]];
      CreditedNonNegative(pays[..|pays| - 1], k);
    }
  }

  lemma {:induction false} OwedElsewhere(cp: Designs, pays: seq<Pay>, c: CurrencyID)
    requires c !in CurrenciesOf(pays)
    ensures Owed(cp, pays, c) == FeesOwed(cp, pays, c) == 0
  {
    if pays != [] {
      assert pays == pays[..|pays| - 1] + [pays[|pays| - 1]];
      OwedElsewhere(cp, pays[..|pays| - 1], c);
    }
  }

  lemma {:induction false} CreatedMeaning(accounts: seq<NewAccount>)
    ensures forall a :: a in Created(accounts) <==> exists x :: x in accounts && x.keys.h == a
    ensures forall a :: a in Created(accounts) ==>
              Created(accounts)[a].address == a && exists x :: x in accounts && x.keys.h == a && Created(accounts)[a].keys == x.keys
  {
    if accounts != [] {
      var front, last := accounts[..|accounts| - 1], accounts[|accounts| - 1];
      assert accounts == front + [last];
      CreatedMeaning(front);
    }
  }

  // ---------------------------------------------------------------- one operation

  /** Credits plus fees equal debits: only a registration changes the total. */
  ghost predicate Balanced(env: Env, op: Op) {
    forall c :: AddIn(BalanceWrites(env, op), c) + FeeIn(BalanceWrites(env, op), c) == MintedBy(c)(op)
  }

  /** Only the sender loses, and never more than the snapshot holds. */
  ghost predicate Covered(env: Env, op: Op) {
    forall k :: AddAt(BalanceWrites(env, op), k) +
                (if DidOf(op) == SenderDid(k.addr) then Lookup(env.base.balances, k).GetOr(0) else 0) >= 0
  }

  /** Balances are written for existing or created accounts, in existing or registered currencies. */
  ghost predicate Placed(env: Env, op: Op) {
    forall st :: st in BalanceWrites(env, op) ==>
      && (st.key.addr in env.base.accounts || st.key.addr in op.Targets())
      && (st.key.cid in env.base.designs || st.key.cid in DesignWrites(env, op))
  }

  ghost predicate WellFormed(env: Env, op: Op) {
    && Sourced(BalanceWrites(env, op), env.base.balances)
    && NoNegativeFee(BalanceWrites(env, op))
    && forall st :: st in BalanceWrites(env, op) && st.fee > 0 ==> ReceiverOf(env.cp, st.key.cid).Some?
  }

  lemma PaymentsAllowed(env: Env, op: Op, pay: Pay)
    requires op.IsValid() && Checks(env, op) && (op.Transfers? || op.CreateAccounts?)
    requires pay in Flatten(op.Payments())
    ensures pay.am.big > 0 && (Exists(env, pay.to) || pay.to in op.Targets()) && pay.am.cid in env.cp
  {
    FlattenMeaning(op.Payments(), pay);
    assert pay.am.cid in CurrenciesOf(Flatten(op.Payments()));
  }

  lemma PaymentCovered(env: Env, op: Op, pays: seq<Pay>)
    requires GoodEnv(env) && op.IsValid() && Checks(env, op)
    requires (op.Transfers? || op.CreateAccounts?) && pays == Flatten(op.Payments())
    ensures Covered(env, op)
  {
    hide Op.IsValid, GoodDesign, Valid, PayWrites, SignedBy, FeeOn;
    forall k ensures AddAt(PayWrites(env, op.sender, pays), k) +
                     (if op.sender == k.addr then Lookup(env.base.balances, k).GetOr(0) else 0) >= 0
    {
      PayWritesMeaning(env, op.sender, pays, k);
      forall pay | pay in pays ensures pay.am.big >= 0 { PaymentsAllowed(env, op, pay); }
      CreditedNonNegative(pays, k);
      assert CanPay(env, op.sender, pays);
      if k.cid !in CurrenciesOf(pays) { OwedElsewhere(env.cp, pays, k.cid); }
      assert k == BK(k.addr, k.cid);
    }
  }

  lemma PaymentBalanced(env: Env, op: Op, pays: seq<Pay>)
    requires (op.Transfers? || op.CreateAccounts?) && pays == Flatten(op.Payments())
    ensures Balanced(env, op)
  {
    forall c ensures AddIn(PayWrites(env, op.sender, pays), c) + FeeIn(PayWrites(env, op.sender, pays), c) == 0 {
      PayWritesMeaning(env, op.sender, pays, BK(op.sender, c));
    }
  }

  lemma PaymentWrite(env: Env, op: Op, st: AmountState)
    requires op.IsValid() && Checks(env, op) && (op.Transfers? || op.CreateAccounts?)
    requires st in PayWrites(env, op.sender, Flatten(op.Payments()))
    ensures st.value == Lookup(env.base.balances, st.key) && st.fee >= 0 && st.key.cid in env.cp
    ensures st.key.addr in env.base.accounts || st.key.addr in op.Targets()
    ensures st.fee > 0 ==> ReceiverOf(env.cp, st.key.cid).Some?
  {
    var pays := Flatten(op.Payments());
    PayWritesMembers(env, op.sender, pays, st);
    var pay :| pay in pays && (st == Credit(env.base, pay) || st == Debit(env, op.sender, pay.am));
    PaymentsAllowed(env, op, pay);
    SenderExists(env, op);
    hide Checks, Op.IsValid, Flatten, PayWrites, Op.Targets, Op.Payments, Feeer.Fee;
  }

  lemma SenderExists(env: Env, op: Op)
    requires Checks(env, op) && (op.Transfers? || op.CreateAccounts?)
    ensures Exists(env, op.sender)
  {
    hide CanPay, Flatten, PassesThreshold;
  }

  lemma PaymentPlaced(env: Env, op: Op)
    requires env.cp == env.base.designs && op.IsValid() && Checks(env, op)
    requires op.Transfers? || op.CreateAccounts?
    ensures Placed(env, op) && WellFormed(env, op)
  {
    var sts := PayWrites(env, op.sender, Flatten(op.Payments()));
    assert BalanceWrites(env, op) == sts;
    forall st | st in sts
      ensures st.value == Lookup(env.base.balances, st.key) && st.fee >= 0 && st.key.cid in env.cp
      ensures st.key.addr in env.base.accounts || st.key.addr in op.Targets()
      ensures st.fee > 0 ==> ReceiverOf(env.cp, st.key.cid).Some?
    {
      PaymentWrite(env, op, st);
    }
  }

  lemma KeyUpdaterFacts(env: Env, op: Op)
    requires GoodEnv(env) && op.IsValid() && Checks(env, op) && op.KeyUpdater?
    ensures Balanced(env, op) && Covered(env, op) && Placed(env, op) && WellFormed(env, op)
  {
    hide Valid, Supply, SignedBy, KeysEqual, ValidCurrencyID;
    assert GoodDesign(env.base, op.cid);
    FeeNonNegative(env.cp[op.cid].policy.feeer, 0);
    SingleWrite(BalanceWrites(env, op)[0]);
  }

  lemma CurrencyRegisterFacts(env: Env, op: Op)
    requires GoodEnv(env) && op.IsValid() && Checks(env, op) && op.CurrencyRegister?
    ensures Balanced(env, op) && Covered(env, op) && Placed(env, op) && WellFormed(env, op)
  {
    SingleWrite(BalanceWrites(env, op)[0]);
  }

  lemma OperationFacts(env: Env, op: Op)
    requires GoodEnv(env) && op.IsValid() && Checks(env, op)
    ensures Balanced(env, op) && Covered(env, op) && Placed(env, op) && WellFormed(env, op)
  {
    match op
    case Transfers(_, items, _) =>
      PaymentCovered(env, op, Flatten(items));
      PaymentBalanced(env, op, Flatten(items));
      PaymentPlaced(env, op);
    case CreateAccounts(_, _, _) =>
      PaymentCovered(env, op, Flatten(op.Payments()));
      PaymentBalanced(env, op, Flatten(op.Payments()));
      PaymentPlaced(env, op);
    case KeyUpdater(_, _, _, _) => KeyUpdaterFacts(env, op);
    case CurrencyRegister(_, _) => CurrencyRegisterFacts(env, op);
    case CurrencyPolicyUpdater(_, _, _) =>
  }

  lemma SingleWrite(x: AmountState)
    ensures forall k :: AddAt([x], k) == if x.key == k then x.add else 0
    ensures forall c :: AddIn([x], c) == if x.key.cid == c then x.add else 0
    ensures forall c :: FeeIn([x], c) == if x.key.cid == c then x.fee else 0
  {
    assert [x][..0] == [];
  }
}
