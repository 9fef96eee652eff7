/**
  The statement of a block: every balance, the tally and every record after it, told from the processed
  operations and the fee policies alone.
*/
module Statements {
  import opened Prelude
  import opened Feeers
  import opened StateKeys
  import opened AccountKeys
  import opened Facts
  import opened AmountStates
  import opened Ledgers
  import opened Effects
  import opened Charges
  import opened BlockInvariants
  import opened Closing
  import opened NewAccounts
  import opened Order

  // ---------------------------------------------------------------- one operation

  /** What an operation brings to the balance of k. */
  function Gain(op: Op, k: BalanceKey): int {
    match op
    case Transfers(_, items, _) => Received(items, k)
    case CreateAccounts(_, _, _) => Received(op.Payments(), k)
    case CurrencyRegister(design, _) =>
      if design.genesisAccount == Some(k.addr) && design.cid == k.cid then design.supply else 0
    case _ => 0
  }

  /** The fees an operation pays in currency c: one per amount, or the fee for nothing of a key update. */
  function Charge(cp: Designs, op: Op, c: CurrencyID): int {
    match op
    case Transfers(_, items, _) => FeesIn(cp, items, c)
    case CreateAccounts(_, _, _) => FeesIn(cp, op.Payments(), c)
    case KeyUpdater(_, _, cid, _) => if cid == c && c in cp then cp[c].policy.feeer.Fee(0) else 0
    case _ => 0
  }

  /** What an operation takes from the balance of k: the amounts its owner sends, and the fees. */
  function Outlay(cp: Designs, op: Op, k: BalanceKey): int {
    match op
    case Transfers(sender, items, _) =>
      if sender == k.addr then TotalOf(items, k.cid) + Charge(cp, op, k.cid) else 0
    case CreateAccounts(sender, _, _) =>
      if sender == k.addr then TotalOf(op.Payments(), k.cid) + Charge(cp, op, k.cid) else 0
    case KeyUpdater(target, _, _, _) => if target == k.addr then Charge(cp, op, k.cid) else 0
    case _ => 0
  }

  lemma PaymentMeaning(env: Env, op: Op, ps: seq<Payment>, k: BalanceKey)
    requires (op.Transfers? || op.CreateAccounts?) && ps == op.Payments()
    ensures AddAt(BalanceWrites(env, op), k) == Gain(op, k) - Outlay(env.cp, op, k)
    ensures FeeIn(BalanceWrites(env, op), k.cid) == Charge(env.cp, op, k.cid)
  {
    var pays := Flatten(ps);
    assert BalanceWrites(env, op) == PayWrites(env, op.sender, pays);
    hide Flatten, PayWrites, Owed, FeesOwed, Credited, FeesIn, TotalOf, Received, AddAt, FeeIn, FeeAt, AddIn;
    PayWritesMeaning(env, op.sender, pays, k);
    OwedMeaning(env.cp, ps, k.cid);
    CreditedMeaning(ps, k);
  }

  /** The deltas and fees written are exactly what the operation brings, takes and pays. */
  lemma WritesMeaning(env: Env, op: Op, k: BalanceKey)
    ensures AddAt(BalanceWrites(env, op), k) == Gain(op, k) - Outlay(env.cp, op, k)
    ensures FeeIn(BalanceWrites(env, op), k.cid) == Charge(env.cp, op, k.cid)
  {
    hide Feeer.Fee;
    match op
    case Transfers(_, items, _) => PaymentMeaning(env, op, items, k);
    case CreateAccounts(_, _, _) => PaymentMeaning(env, op, op.Payments(), k);
    case KeyUpdater(_, _, _, _) => SingleWrite(BalanceWrites(env, op)[0]);
    case CurrencyRegister(design, _) =>
      if design.genesisAccount.Some? { SingleWrite(BalanceWrites(env, op)[0]); }
    case CurrencyPolicyUpdater(_, _, _) =>
  }

  ghost function ReceiversOf(ps: seq<Payment>): set<Address> {
    set p | p in ps :: p.to
  }

  lemma {:induction false} ReceiversCount(ps: seq<Payment>)
    requires DistinctReceivers(ps)
    ensures |ReceiversOf(ps)| == |ps|
  {
    if ps != [] {
      var front, last := ps[..|ps| - 1], ps[|ps| - 1];
      ReceiversCount(front);
      assert ps == front + [last];
      assert ReceiversOf(ps) == ReceiversOf(front) + {last.to} && last.to !in ReceiversOf(front);
    }
  }

  /** A valid transfer or creation pays 1 to 10 receivers, never its sender, and each amount arrives once. */
  lemma ItemsArrive(op: Op)
    requires op.IsValid() && (op.Transfers? || op.CreateAccounts?)
    ensures 1 <= |ReceiversOf(op.Payments())| == |op.Payments()| <= 10 && op.sender !in ReceiversOf(op.Payments())
    ensures forall p :: p in op.Payments() ==> p.amounts != []
    ensures forall p, am :: p in op.Payments() && am in p.amounts ==> Gain(op, BK(p.to, am.cid)) == am.big > 0
  {
    hide Valid, Received, Flatten, Credited, ValidCurrencyID, DistinctSigners, DistinctReceivers, DistinctCurrencies;
    var ps := op.Payments();
    assert ValidPayments(op.sender, ps);
    ReceiversCount(ps);
    forall p | p in ps ensures ValidAmounts(p.amounts) {}
    forall p, am | p in ps && am in p.amounts ensures Gain(op, BK(p.to, am.cid)) == am.big > 0 {
      CreditedExactly(ps, p, am);
      CreditedMeaning(ps, BK(p.to, am.cid));
    }
  }

  // ---------------------------------------------------------------- one processed operation

  /**
    Processing an operation: each balance gains what the operation brings to it and loses what it
    takes, and the tally grows by the fees.
  */
  lemma ProcessedStatement(b: Block, op: Op, k: BalanceKey)
    requires BlockInv(b) && op in b.ready
    ensures var c := StepProcess(b, op);
            && Now(c, k) == Now(b, k) + Gain(op, k) - Outlay(b.env.cp, op, k)
            && TallyOf(c.fee, k.cid) == TallyOf(b.fee, k.cid) + Charge(b.env.cp, op, k.cid)
  {
    hide Checks, Op.IsValid, GoodEnv, BalanceWrites, AccountWrites, DesignWrites, Gain, Outlay, Charge;
    hide Conserved, TallyExact, Solvent, Sited, WrittenOnce, Balanced, Covered, Placed;
    var sts := BalanceWrites(b.env, op);
    ReadyOperation(b, op);
    WritesMeaning(b.env, op, k);
    PostAllMeaning(b.bal, b.env.base.balances, sts, k);
    TallyMeaning(b.fee, sts, k.cid);
  }

  // ---------------------------------------------------------------- a whole block

  ghost function GainBy(k: BalanceKey): Op -> int {
    op => Gain(op, k)
  }

  ghost function OutlayBy(cp: Designs, k: BalanceKey): Op -> int {
    op => Outlay(cp, op, k)
  }

  ghost function ChargeBy(cp: Designs, c: CurrencyID): Op -> int {
    op => Charge(cp, op, c)
  }

  lemma {:induction false} SumDifference<T(!new)>(s: set<T>, f: T -> int, g: T -> int, h: T -> int)
    requires forall x :: x in s ==> f(x) == g(x) - h(x)
    ensures Sum(s, f) == Sum(s, g) - Sum(s, h)
  {
    if s != {} {
      var x :| x in s;
      SumSplit(s, f, x);
      SumSplit(s, g, x);
      SumSplit(s, h, x);
      SumDifference(s - {x}, f, g, h);
    }
  }

  /** At every point of a block: balances and tally are those of the operations processed so far. */
  lemma RunStatement(env: Env, es: seq<Event>, k: BalanceKey)
    requires GoodEnv(env) && ValidEvents(es)
    ensures var b := Run(Fresh(env), es);
            && Now(b, k) == Before(b, k) + Sum(b.done, GainBy(k)) - Sum(b.done, OutlayBy(env.cp, k))
            && TallyOf(b.fee, k.cid) == Sum(b.done, ChargeBy(env.cp, k.cid))
  {
    RunSummary(env, es);
    RunKeepsInv(env, es);
    var b := Run(Fresh(env), es);
    hide GoodEnv, BlockInv, Run, BalanceWrites, Gain, Outlay, Charge, BalanceOf, FeeBy, TouchedBy;
    forall op | op in b.done
      ensures AddBy(env, k)(op) == GainBy(k)(op) - OutlayBy(env.cp, k)(op)
      ensures FeeInBy(env, k.cid)(op) == ChargeBy(env.cp, k.cid)(op)
    {
      WritesMeaning(env, op, k);
    }
    SumDifference(b.done, AddBy(env, k), GainBy(k), OutlayBy(env.cp, k));
    SumCongruent(b.done, FeeInBy(env, k.cid), ChargeBy(env.cp, k.cid));
  }

  /** The account the policy of the currency names. */
  predicate IsPayee(cp: Designs, k: BalanceKey) {
    k.cid in cp && !cp[k.cid].policy.feeer.NilFeeer? && cp[k.cid].policy.feeer.payee == k.addr
  }

  function Held(l: Ledger, k: BalanceKey): int {
    if k in l.balances then l.balances[k] else 0
  }

  /**
    The saved ledger, balance by balance: what it was, plus what the operations of the block bring, less
    what they take, plus, for the payee of a currency, all fees paid in it.
  */
  lemma BlockStatement(env: Env, es: seq<Event>, k: BalanceKey)
    requires GoodEnv(env) && ValidEvents(es)
    ensures var b := Run(Fresh(env), es);
            Held(Commit(b), k) ==
            Held(env.base, k) + Sum(b.done, GainBy(k)) - Sum(b.done, OutlayBy(env.cp, k)) +
            if IsPayee(env.cp, k) then Sum(b.done, ChargeBy(env.cp, k.cid)) else 0
  {
    RunStatement(env, es, k);
    RunKeepsInv(env, es);
    var b := Run(Fresh(env), es);
    ClosePays(b);
    CommitHeld(b, k);
    hide GoodEnv, BlockInv, Run, Commit, Gain, Outlay, Charge, Payable;
  }

  lemma CommitHeld(b: Block, k: BalanceKey)
    requires Payable(b)
    ensures Held(Commit(b), k) == Now(b, k) + if IsPayee(b.env.cp, k) then TallyOf(b.fee, k.cid) else 0
  {}

  // ---------------------------------------------------------------- which balances there are

  ghost predicate Receives(ps: seq<Payment>, k: BalanceKey) {
    exists p, am :: p in ps && am in p.amounts && p.to == k.addr && am.cid == k.cid
  }

  /** The operation writes the balance of k, be it with a delta of 0. */
  ghost predicate Involves(op: Op, k: BalanceKey) {
    match op
    case Transfers(sender, items, _) => Receives(items, k) || (sender == k.addr && Mentions(items, k.cid))
    case CreateAccounts(sender, _, _) =>
      Receives(op.Payments(), k) || (sender == k.addr && Mentions(op.Payments(), k.cid))
    case KeyUpdater(target, _, cid, _) => k == BK(target, cid)
    case CurrencyRegister(design, _) => design.genesisAccount == Some(k.addr) && design.cid == k.cid
    case CurrencyPolicyUpdater(_, _, _) => false
  }

  lemma PaymentTouches(env: Env, payer: Address, ps: seq<Payment>, k: BalanceKey)
    ensures Touched(PayWrites(env, payer, Flatten(ps)), k) <==> Receives(ps, k) || (payer == k.addr && Mentions(ps, k.cid))
  {
    hide PayWrites, Flatten, FeeOn;
    var pays := Flatten(ps);
    if Touched(PayWrites(env, payer, pays), k) {
      var st :| st in PayWrites(env, payer, pays) && st.key == k;
      PayWritesMembers(env, payer, pays, st);
      var pay :| pay in pays && (st == Credit(env.base, pay) || st == Debit(env, payer, pay.am));
      FlattenMeaning(ps, pay);
    }
    if Receives(ps, k) {
      var p, am :| p in ps && am in p.amounts && p.to == k.addr && am.cid == k.cid;
      FlattenContains(ps, p, am);
      PayWritesMembers(env, payer, pays, Credit(env.base, Pay(p.to, am)));
    }
    if payer == k.addr && Mentions(ps, k.cid) {
      var p, am :| p in ps && am in p.amounts && am.cid == k.cid;
      FlattenContains(ps, p, am);
      PayWritesMembers(env, payer, pays, Debit(env, payer, am));
    }
  }

  lemma WritesTouch(env: Env, op: Op, k: BalanceKey)
    ensures Touched(BalanceWrites(env, op), k) <==> Involves(op, k)
  {
    hide Receives, Mentions, Flatten, Feeer.Fee, PayWrites;
    match op
    case Transfers(sender, items, _) => PaymentTouches(env, sender, items, k);
    case CreateAccounts(sender, _, _) => PaymentTouches(env, sender, op.Payments(), k);
    case KeyUpdater(target, _, cid, _) =>
      assert forall st :: st in BalanceWrites(env, op) <==> st == BalanceWrites(env, op)[0];
    case CurrencyRegister(design, _) =>
      if design.genesisAccount.Some? {
        assert forall st :: st in BalanceWrites(env, op) <==> st == BalanceWrites(env, op)[0];
      }
    case CurrencyPolicyUpdater(_, _, _) =>
  }

  /** The saved ledger lists the balances it had, those of processed operations, and those of paid payees. */
  lemma BalancesListed(env: Env, es: seq<Event>, k: BalanceKey)
    requires GoodEnv(env) && ValidEvents(es)
    ensures var b := Run(Fresh(env), es);
            k in Commit(b).balances <==>
              || k in env.base.balances
              || (exists op :: op in b.done && Involves(op, k))
              || (IsPayee(env.cp, k) && Sum(b.done, ChargeBy(env.cp, k.cid)) > 0)
  {
    RunStatement(env, es, k);
    RunSummary(env, es);
    RunKeepsInv(env, es);
    var b := Run(Fresh(env), es);
    ClosePays(b);
    CommitLists(b, k);
    hide GoodEnv, BlockInv, Run, Commit, Gain, Outlay, Charge, Payable, Involves, Touched, BalanceOf, AddBy;
    forall op ensures Touched(BalanceWrites(env, op), k) <==> Involves(op, k) { WritesTouch(env, op, k); }
    assert k in b.bal <==> TouchedBy(env, b.done, k);
  }

  lemma CommitLists(b: Block, k: BalanceKey)
    requires BlockInv(b) && Payable(b)
    ensures k in Commit(b).balances <==>
              k in b.env.base.balances || k in b.bal || (IsPayee(b.env.cp, k) && TallyOf(b.fee, k.cid) > 0)
  {
    hide GoodEnv, Bookkeeping, Conserved, Solvent, Sited, WrittenOnce, Supply;
    assert k.cid in b.fee <==> TallyOf(b.fee, k.cid) > 0;
  }

  // ---------------------------------------------------------------- records

  /** The account record an operation leaves at a. */
  ghost predicate WritesAccount(op: Op, a: Address, account: Account) {
    match op
    case CreateAccounts(_, accounts, _) =>
      exists x :: x in accounts && x.keys.h == a && account == Account(a, x.keys)
    case KeyUpdater(target, keys, _, _) => target == a && account == Account(a, keys)
    case _ => false
  }

  /** The design an operation leaves for c: as registered, or the saved one with another policy. */
  ghost predicate WritesDesign(was: Designs, op: Op, c: CurrencyID, de: Design) {
    match op
    case CurrencyRegister(design, _) => design.cid == c && de == design
    case CurrencyPolicyUpdater(cid, policy, _) =>
      cid == c && c in was && de == Design(was[c].cid, was[c].supply, was[c].genesisAccount, policy)
    case _ => false
  }

  lemma AccountWritten(env: Env, op: Op, a: Address)
    requires GoodEnv(env) && op.IsValid() && Checks(env, op)
    ensures a in AccountWrites(env, op) ==> WritesAccount(op, a, AccountWrites(env, op)[a])
    ensures forall account :: WritesAccount(op, a, account) ==> a in AccountWrites(env, op) && AccountWrites(env, op)[a] == account
  {
    hide GoodDesign, Valid, SignedBy, CanPay, KeysEqual, Flatten, ValidAmounts;
    match op
    case CreateAccounts(_, accounts, _) =>
      CreatedMeaning(accounts);
      forall x, y | x in accounts && y in accounts && x.keys.h == y.keys.h ensures x == y {
        SameTarget(op, x, y);
      }
    case KeyUpdater(_, _, _, _) =>
    case _ =>
  }

  /** The items of a valid creation have different targets. */
  lemma SameTarget(op: Op, x: NewAccount, y: NewAccount)
    requires op.IsValid() && op.CreateAccounts? && x in op.accounts && y in op.accounts && x.keys.h == y.keys.h
    ensures x == y
  {
    hide Valid, ValidAmounts;
    var i :| 0 <= i < |op.accounts| && op.accounts[i] == x;
    var j :| 0 <= j < |op.accounts| && op.accounts[j] == y;
    assert op.Payments()[i].to == op.Payments()[j].to;
  }

  lemma DesignWritten(env: Env, op: Op, c: CurrencyID)
    requires Checks(env, op)
    ensures c in DesignWrites(env, op) ==> WritesDesign(env.base.designs, op, c, DesignWrites(env, op)[c])
    ensures forall de :: WritesDesign(env.base.designs, op, c, de) ==> c in DesignWrites(env, op) && DesignWrites(env, op)[c] == de
  {
    hide CanPay, SignedBySuffrage, Flatten;
  }

  /** m holds what some member of s writes for k, and otherwise what was there before. */
  ghost predicate Follows<K(!new), V(!new)>(was: map<K, V>, m: map<K, V>, s: set<Op>, k: K, writes: (Op, V) -> bool) {
    && (forall op, v :: op in s && writes(op, v) ==> k in m && m[k] == v)
    && ((forall op, v :: op in s ==> !writes(op, v)) ==> (k in m <==> k in was) && (k in was ==> m[k] == was[k]))
  }

  lemma UnionFollows<K(!new), V(!new)>(was: map<K, V>, m: map<K, V>, s: set<Op>, f: Op -> map<K, V>, k: K, writes: (Op, V) -> bool)
    requires IsUnion(m, s, f)
    requires forall op :: op in s && k in f(op) ==> writes(op, f(op)[k])
    requires forall op, v :: op in s && writes(op, v) ==> k in f(op) && f(op)[k] == v
    ensures Follows(was, was + m, s, k, writes)
  {}

  ghost function AccountWriter(a: Address): (Op, Account) -> bool {
    (op: Op, account: Account) => WritesAccount(op, a, account)
  }

  ghost function DesignWriterOf(was: Designs, c: CurrencyID): (Op, Design) -> bool {
    (op: Op, de: Design) => WritesDesign(was, op, c, de)
  }

  /**
    The records of the saved ledger: what a processed operation says about an account or a currency is
    what is saved, and whatever no processed operation speaks of is as it was.
  */
  lemma RecordStatement(env: Env, es: seq<Event>, a: Address, c: CurrencyID)
    requires GoodEnv(env) && ValidEvents(es)
    ensures var b := Run(Fresh(env), es);
            && Follows(env.base.accounts, Commit(b).accounts, b.done, a, AccountWriter(a))
            && Follows(env.base.designs, Commit(b).designs, b.done, c, DesignWriterOf(env.base.designs, c))
  {
    RunKeepsInv(env, es);
    var b := Run(Fresh(env), es);
    hide GoodEnv, BlockInv, Run, Follows, Paid;
    RecordsOf(b, a, c);
  }

  lemma RecordsOf(b: Block, a: Address, c: CurrencyID)
    requires BlockInv(b)
    ensures Follows(b.env.base.accounts, b.env.base.accounts + b.acc, b.done, a, AccountWriter(a))
    ensures Follows(b.env.base.designs, b.env.base.designs + b.des, b.done, c, DesignWriterOf(b.env.base.designs, c))
  {
    hide GoodEnv, Bookkeeping, Conserved, TallyExact, Solvent, Sited, IsUnion, Follows, Checks, Op.IsValid;
    hide WritesAccount, WritesDesign, AccountWrites, DesignWrites;
    forall op | op in b.done
      ensures op.IsValid() && Checks(b.env, op)
    {
      ProcessedOperation(b, op);
    }
    forall op | op in b.done
      ensures a in AccountWrites(b.env, op) ==> WritesAccount(op, a, AccountWrites(b.env, op)[a])
      ensures forall v :: WritesAccount(op, a, v) ==> a in AccountWrites(b.env, op) && AccountWrites(b.env, op)[a] == v
    {
      AccountWritten(b.env, op, a);
    }
    forall op | op in b.done
      ensures c in DesignWrites(b.env, op) ==> WritesDesign(b.env.base.designs, op, c, DesignWrites(b.env, op)[c])
      ensures forall v :: WritesDesign(b.env.base.designs, op, c, v) ==> c in DesignWrites(b.env, op) && DesignWrites(b.env, op)[c] == v
    {
      DesignWritten(b.env, op, c);
    }
    UnionFollows(b.env.base.accounts, b.acc, b.done, AccountsBy(b.env), a, AccountWriter(a));
    UnionFollows(b.env.base.designs, b.des, b.done, DesignsBy(b.env), c, DesignWriterOf(b.env.base.designs, c));
  }

  lemma FollowsWriter<K(!new), V(!new)>(was: map<K, V>, m: map<K, V>, s: set<Op>, k: K, writes: (Op, V) -> bool, op: Op, v: V)
    requires Follows(was, m, s, k, writes) && op in s && writes(op, v)
    ensures k in m && m[k] == v
  {}

  /** A processed registration or policy update is in force once the block is saved; nothing else of the design changes. */
  lemma DesignInForce(env: Env, es: seq<Event>, op: Op)
    requires GoodEnv(env) && ValidEvents(es) && op in Run(Fresh(env), es).done
    ensures var l := Commit(Run(Fresh(env), es));
            && (op.CurrencyRegister? ==> op.design.cid in l.designs && l.designs[op.design.cid] == op.design)
            && (op.CurrencyPolicyUpdater? ==>
                  && op.cid in env.base.designs && op.cid in l.designs
                  && var de := env.base.designs[op.cid];
                     l.designs[op.cid] == Design(op.cid, de.supply, de.genesisAccount, op.policy))
  {
    RunKeepsInv(env, es);
    hide Run, Commit, BlockInv, GoodEnv, Op.IsValid;
    InForce(Run(Fresh(env), es), op);
  }

  lemma InForce(b: Block, op: Op)
    requires BlockInv(b) && op in b.done
    ensures op.CurrencyRegister? ==> op.design.cid in Commit(b).designs && Commit(b).designs[op.design.cid] == op.design
    ensures op.CurrencyPolicyUpdater? ==>
              && op.cid in b.env.base.designs && op.cid in Commit(b).designs
              && var de := b.env.base.designs[op.cid];
                 Commit(b).designs[op.cid] == Design(op.cid, de.supply, de.genesisAccount, op.policy)
  {
    hide Commit, BlockInv, GoodEnv, Follows, Op.IsValid;
    if op.CurrencyRegister? {
      SavedDesignIs(b, op, op.design.cid, op.design);
    } else if op.CurrencyPolicyUpdater? {
      UpdatedDesign(b, op);
      var de := b.env.base.designs[op.cid];
      SavedDesignIs(b, op, op.cid, Design(op.cid, de.supply, de.genesisAccount, op.policy));
    }
  }

  lemma SavedDesignIs(b: Block, op: Op, c: CurrencyID, de: Design)
    requires BlockInv(b) && op in b.done && WritesDesign(b.env.base.designs, op, c, de)
    ensures c in Commit(b).designs && Commit(b).designs[c] == de
  {
    RecordsOf(b, "", c);
    hide BlockInv, Follows, Paid, WritesDesign;
    FollowsWriter(b.env.base.designs, Commit(b).designs, b.done, c, DesignWriterOf(b.env.base.designs, c), op, de);
  }

  lemma UpdatedDesign(b: Block, op: Op)
    requires BlockInv(b) && op in b.done && op.CurrencyPolicyUpdater?
    ensures op.cid in b.env.base.designs && b.env.base.designs[op.cid].cid == op.cid
  {
    hide Conserved, TallyExact, Solvent, Sited, WrittenOnce, Supply, Valid, Op.IsValid;
    ProcessedOperation(b, op);
    hide SignedBySuffrage, DidOf, Op.Targets;
    assert GoodDesign(b.env.base, op.cid);
  }
}
