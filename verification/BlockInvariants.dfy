/** What holds after every step of every interleaving of a block. */
module BlockInvariants {
  import opened Prelude
  import opened Feeers
  import opened StateKeys
  import opened AccountKeys
  import opened Facts
  import opened AmountStates
  import opened Ledgers
  import opened Effects

  ghost function Accepted(b: Block): set<Op> {
    b.ready + b.done
  }

  /** Accepted operations are valid, checked, and pairwise apart in sender, currency and targets. */
  ghost predicate Bookkeeping(b: Block) {
    && b.ready !! b.done
    && (forall op :: op in Accepted(b) ==>
          op.IsValid() && Checks(b.env, op) && DidOf(op) in b.duplicated && op.Targets() <= b.newAddresses)
    && (forall x, y :: x in Accepted(b) && y in Accepted(b) && x != y ==>
          DidOf(x) != DidOf(y) && x.Targets() !! y.Targets())
  }

  /** Balances and collected fees together equal the snapshot total plus what was minted. */
  ghost predicate Conserved(b: Block) {
    forall c :: Supply(BalancesNow(b), c) + TallyOf(b.fee, c) ==
                Supply(b.env.base.balances, c) + Sum(b.done, MintedBy(c))
  }

  /** The tally is exactly what the fee fields of the written states add up to. */
  ghost predicate TallyExact(b: Block) {
    && (forall c :: TallyOf(b.fee, c) == Supply(FeesOf(b.bal), c))
    && (forall c :: c in b.fee ==> b.fee[c] > 0 && FeeReceiver(b, c).Some?)
  }

  ghost function Now(b: Block, k: BalanceKey): int {
    BalanceOf(b.bal, b.env.base.balances, k).value
  }

  ghost function Before(b: Block, k: BalanceKey): int {
    Lookup(b.env.base.balances, k).GetOr(0)
  }

  ghost predicate Debited(b: Block, a: Address) {
    exists op :: op in b.done && DidOf(op) == SenderDid(a)
  }

  /** No balance is negative, and an account that has not been a sender has lost nothing. */
  ghost predicate Solvent(b: Block) {
    forall k :: Now(b, k) >= 0 && (!Debited(b, k.addr) ==> Now(b, k) >= Before(b, k))
  }

  /** Balances are written only for accounts and currencies that exist once the block is saved. */
  ghost predicate Sited(b: Block) {
    forall k :: k in b.bal ==>
      && (k.addr in b.env.base.accounts || k.addr in b.acc)
      && (k.cid in b.env.base.designs || k.cid in b.des)
  }

  /** m collects the maps f gives for the members of s, none overwriting another. */
  ghost predicate IsUnion<K(!new), V>(m: map<K, V>, s: set<Op>, f: Op -> map<K, V>) {
    && (forall k :: k in m <==> exists op :: op in s && k in f(op))
    && (forall op, k :: op in s && k in f(op) ==> m[k] == f(op)[k])
  }

  lemma UnionInsert<K(!new), V>(m: map<K, V>, s: set<Op>, f: Op -> map<K, V>, op: Op)
    requires IsUnion(m, s, f) && forall x :: x in s ==> f(x).Keys !! f(op).Keys
    ensures IsUnion(m + f(op), s + {op}, f)
  {}

  ghost function AccountsBy(env: Env): Op -> map<Address, Account> {
    op => AccountWrites(env, op)
  }

  ghost function DesignsBy(env: Env): Op -> Designs {
    op => DesignWrites(env, op)
  }

  /** Every account record and every design written comes unchanged from one processed operation. */
  ghost predicate WrittenOnce(b: Block) {
    IsUnion(b.acc, b.done, AccountsBy(b.env)) && IsUnion(b.des, b.done, DesignsBy(b.env))
  }

  ghost predicate BlockInv(b: Block) {
    && GoodEnv(b.env)
    && Bookkeeping(b) && Conserved(b) && TallyExact(b) && Solvent(b) && Sited(b) && WrittenOnce(b)
  }

  lemma FreshInv(env: Env)
    requires GoodEnv(env)
    ensures BlockInv(Fresh(env))
  {
    hide GoodEnv, Checks, Op.IsValid, Op.Targets, DidOf, Conserved, TallyExact, Solvent;
    FreshConserved(env);
    FreshSolvent(env);
  }

  lemma FreshConserved(env: Env)
    ensures Conserved(Fresh(env)) && TallyExact(Fresh(env))
  {
    var b := Fresh(env);
    assert BalancesNow(b) == env.base.balances;
    assert FeesOf(b.bal).Keys == {};
  }

  lemma FreshSolvent(env: Env)
    requires GoodEnv(env)
    ensures Solvent(Fresh(env))
  {
    hide GoodDesign, Valid;
  }

  // ---------------------------------------------------------------- disjoint writes

  lemma AccountWritesMeaning(env: Env, op: Op)
    requires Checks(env, op)
    ensures op.CreateAccounts? ==> AccountWrites(env, op).Keys == op.Targets()
    ensures op.KeyUpdater? ==> AccountWrites(env, op).Keys == {op.target}
    ensures !op.CreateAccounts? && !op.KeyUpdater? ==> AccountWrites(env, op).Keys == {}
  {
    if op.CreateAccounts? { CreatedMeaning(op.accounts); }
  }

  /** Operations accepted in one block never write the same account or design. */
  lemma WritesDisjoint(env: Env, x: Op, y: Op)
    requires Checks(env, x) && Checks(env, y)
    requires DidOf(x) != DidOf(y) && x.Targets() !! y.Targets()
    ensures AccountWrites(env, x).Keys !! AccountWrites(env, y).Keys
    ensures DesignWrites(env, x).Keys !! DesignWrites(env, y).Keys
  {
    AccountWritesMeaning(env, x);
    AccountWritesMeaning(env, y);
  }

  // ---------------------------------------------------------------- one step of PreProcess

  /** Accepting an operation changes nothing but the bookkeeping. */
  ghost predicate SameRecords(b: Block, c: Block) {
    b.env == c.env && b.bal == c.bal && b.acc == c.acc && b.des == c.des && b.fee == c.fee && b.done == c.done
  }

  lemma SameConserved(b: Block, c: Block)
    requires SameRecords(b, c) && Conserved(b) && TallyExact(b)
    ensures Conserved(c) && TallyExact(c)
  {
    assert BalancesNow(c) == BalancesNow(b);
  }

  lemma SameSolvent(b: Block, c: Block)
    requires SameRecords(b, c) && Solvent(b)
    ensures Solvent(c)
  {
    forall k ensures Now(c, k) >= 0 && (!Debited(c, k.addr) ==> Now(c, k) >= Before(c, k)) {
      assert Now(c, k) == Now(b, k) && Before(c, k) == Before(b, k);
      assert Debited(c, k.addr) <==> Debited(b, k.addr);
    }
  }

  lemma SameWritten(b: Block, c: Block)
    requires SameRecords(b, c) && Sited(b) && WrittenOnce(b)
    ensures Sited(c) && WrittenOnce(c)
  {}

  lemma Apart<T>(s: set<T>, t: set<T>, u: set<T>)
    requires s <= t && u !! t
    ensures s !! u
  {}

  lemma PreProcessBookkeeping(b: Block, op: Op)
    requires Bookkeeping(b) && op.IsValid()
    ensures Bookkeeping(StepPreProcess(b, op))
  {
    hide Checks, Op.Targets, Op.IsValid, DidOf;
    var c := StepPreProcess(b, op);
    if Accepts(b, op) {
      assert op !in Accepted(b);
      assert Accepted(c) == Accepted(b) + {op};
      forall x | x in Accepted(b) ensures x.Targets() !! op.Targets() && DidOf(x) != DidOf(op) {
        Apart(x.Targets(), b.newAddresses, op.Targets());
      }
    } else {
      assert Accepted(c) == Accepted(b);
    }
  }

  lemma PreProcessKeepsInv(b: Block, op: Op)
    requires BlockInv(b) && op.IsValid()
    ensures BlockInv(StepPreProcess(b, op))
  {
    hide Checks, Op.Targets, Op.IsValid, DidOf, GoodEnv, Bookkeeping, Conserved, TallyExact, Solvent, Sited;
    hide WrittenOnce;
    var c := StepPreProcess(b, op);
    assert SameRecords(b, c);
    PreProcessBookkeeping(b, op);
    SameConserved(b, c);
    SameSolvent(b, c);
    SameWritten(b, c);
  }

  // ---------------------------------------------------------------- one step of Process

  lemma ReadyOperation(b: Block, op: Op)
    requires GoodEnv(b.env) && Bookkeeping(b) && op in b.ready
    ensures op.IsValid() && Checks(b.env, op)
    ensures Balanced(b.env, op) && Covered(b.env, op) && Placed(b.env, op) && WellFormed(b.env, op)
  {
    hide Checks, Op.IsValid, Op.Targets, DidOf, GoodEnv, Balanced, Covered, Placed, WellFormed;
    assert op in Accepted(b);
    OperationFacts(b.env, op);
  }

  lemma EffectConservesIn(b: Block, op: Op, c: CurrencyID)
    requires BlockInv(b) && op in b.ready
    ensures var d := Effect(b, op);
            && Supply(BalancesNow(d), c) + TallyOf(d.fee, c) ==
               Supply(b.env.base.balances, c) + Sum(b.done + {op}, MintedBy(c))
            && TallyOf(d.fee, c) == Supply(FeesOf(d.bal), c)
            && (c in d.fee ==> d.fee[c] > 0 && FeeReceiver(d, c).Some?)
  {
    hide Checks, Op.IsValid, GoodEnv, BalanceWrites, AccountWrites, DesignWrites;
    hide Solvent, Sited, WrittenOnce, Covered, Placed, Supply, Sourced, NoNegativeFee, FeesOf, MintedBy, Values;
    var sts := BalanceWrites(b.env, op);
    ReadyOperation(b, op);
    SupplyAfter(b.bal, b.env.base.balances, sts, c);
    FeesAfter(b.bal, sts, c);
    TallyMeaning(b.fee, sts, c);
    SumInsert(b.done, MintedBy(c), op);
    if FeeIn(sts, c) > 0 { FeeHasWrite(sts, c); }
  }

  lemma EffectConserves(b: Block, op: Op)
    requires BlockInv(b) && op in b.ready
    ensures Conserved(Effect(b, op)) && TallyExact(Effect(b, op))
  {
    hide BlockInv, Supply, BalancesNow, FeesOf, MintedBy, BalanceWrites, AccountWrites, DesignWrites;
    var d := Effect(b, op);
    forall c
      ensures Supply(BalancesNow(d), c) + TallyOf(d.fee, c) == Supply(d.env.base.balances, c) + Sum(d.done, MintedBy(c))
      ensures TallyOf(d.fee, c) == Supply(FeesOf(d.bal), c)
      ensures c in d.fee ==> d.fee[c] > 0 && FeeReceiver(d, c).Some?
    {
      EffectConservesIn(b, op, c);
    }
  }

  lemma {:induction false} FeeHasWrite(sts: seq<AmountState>, c: CurrencyID)
    requires FeeIn(sts, c) > 0
    ensures exists st :: st in sts && st.key.cid == c && st.fee > 0
  {
    var front, last := sts[..|sts| - 1], sts[|sts| - 1];
    if last.key.cid == c && last.fee > 0 {
      assert last in sts;
    } else {
      FeeHasWrite(front, c);
      var st :| st in front && st.key.cid == c && st.fee > 0;
      assert st in sts;
    }
  }

  /**
    The check was made against the snapshot, but it still protects the balance: the sender of an
    accepted operation has not been debited by any other operation of the block.
  */
  lemma EffectSolvent(b: Block, op: Op)
    requires BlockInv(b) && op in b.ready
    ensures Solvent(Effect(b, op))
  {
    hide Checks, Op.IsValid, GoodEnv, BalanceWrites, AccountWrites, DesignWrites;
    hide Conserved, TallyExact, Sited, WrittenOnce, Balanced, Placed, Sourced, DidOf;
    var c := Effect(b, op);
    var sts := BalanceWrites(b.env, op);
    ReadyOperation(b, op);
    forall k ensures Now(c, k) >= 0 && (!Debited(c, k.addr) ==> Now(c, k) >= Before(c, k)) {
      PostAllMeaning(b.bal, b.env.base.balances, sts, k);
      assert Now(c, k) == Now(b, k) + AddAt(sts, k);
      if DidOf(op) == SenderDid(k.addr) {
        assert Debited(c, k.addr);
        assert !Debited(b, k.addr);
      } else if Debited(b, k.addr) {
        assert Debited(c, k.addr);
      }
    }
  }

  lemma EffectBookkeeping(b: Block, op: Op)
    requires Bookkeeping(b) && op in b.ready
    ensures Bookkeeping(Effect(b, op))
  {
    hide Checks, Op.IsValid, Op.Targets, DidOf, BalanceWrites, AccountWrites, DesignWrites, PostAll, TallyAll;
    assert Accepted(Effect(b, op)) == Accepted(b);
  }

  lemma DoneDisjoint(b: Block, op: Op)
    requires Bookkeeping(b) && op in b.ready
    ensures forall x :: x in b.done ==> AccountWrites(b.env, x).Keys !! AccountWrites(b.env, op).Keys
    ensures forall x :: x in b.done ==> DesignWrites(b.env, x).Keys !! DesignWrites(b.env, op).Keys
  {
    forall x | x in b.done
      ensures AccountWrites(b.env, x).Keys !! AccountWrites(b.env, op).Keys
      ensures DesignWrites(b.env, x).Keys !! DesignWrites(b.env, op).Keys
    {
      assert x in Accepted(b) && op in Accepted(b);
      WritesDisjoint(b.env, x, op);
    }
  }

  lemma EffectWrittenOnce(b: Block, op: Op)
    requires Bookkeeping(b) && WrittenOnce(b) && op in b.ready
    ensures WrittenOnce(Effect(b, op))
  {
    hide Checks, Op.IsValid, Op.Targets, DidOf, BalanceWrites, AccountWrites, DesignWrites, IsUnion, Bookkeeping;
    DoneDisjoint(b, op);
    UnionInsert(b.acc, b.done, AccountsBy(b.env), op);
    UnionInsert(b.des, b.done, DesignsBy(b.env), op);
  }

  lemma EffectSited(b: Block, op: Op)
    requires BlockInv(b) && op in b.ready
    ensures Sited(Effect(b, op))
  {
    hide Checks, Op.IsValid, GoodEnv, BalanceWrites, AccountWrites, DesignWrites;
    hide Conserved, TallyExact, Solvent, WrittenOnce, Balanced, Covered, Sourced, DidOf;
    var c := Effect(b, op);
    var sts := BalanceWrites(b.env, op);
    ReadyOperation(b, op);
    AccountWritesMeaning(b.env, op);
    forall k | k in c.bal
      ensures (k.addr in b.env.base.accounts || k.addr in c.acc) && (k.cid in b.env.base.designs || k.cid in c.des)
    {
      PostAllMeaning(b.bal, b.env.base.balances, sts, k);
    }
  }

  lemma StepKeepsInv(b: Block, e: Event)
    requires BlockInv(b) && e.op.IsValid()
    ensures BlockInv(Step(b, e)) && Step(b, e).env == b.env
  {
    hide Checks, Op.IsValid, BalanceWrites, AccountWrites, DesignWrites, GoodEnv;
    hide Bookkeeping, Conserved, TallyExact, Solvent, Sited, WrittenOnce;
    match e
    case PreProcess(op) => PreProcessKeepsInv(b, op);
    case Process(op) =>
      if op in b.ready {
        EffectConserves(b, op);
        EffectSolvent(b, op);
        EffectBookkeeping(b, op);
        EffectWrittenOnce(b, op);
        EffectSited(b, op);
      }
  }

  ghost predicate ValidEvents(es: seq<Event>) {
    forall e :: e in es ==> e.op.IsValid()
  }

  /** The invariant holds after any number of steps of any interleaving. */
  lemma {:induction false} RunKeepsInv(env: Env, es: seq<Event>)
    requires GoodEnv(env) && ValidEvents(es)
    ensures BlockInv(Run(Fresh(env), es)) && Run(Fresh(env), es).env == env
  {
    hide BlockInv, GoodEnv, Op.IsValid, Step;
    if es == [] {
      FreshInv(env);
    } else {
      var front, e := es[..|es| - 1], es[|es| - 1];
      assert e in es && forall x :: x in front ==> x in es;
      RunKeepsInv(env, front);
      StepKeepsInv(Run(Fresh(env), front), e);
    }
  }
}
