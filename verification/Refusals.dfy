/** What a refused operation leaves behind in the block. */
module Refusals {
  import opened Prelude
  import opened Feeers
  import opened StateKeys
  import opened AccountKeys
  import opened Facts
  import opened AmountStates
  import opened Ledgers
  import opened Effects
  import opened Chains

  /**
    A refusal leaves no trace exactly if the checks failed or the sender or currency was already
    recorded; in the remaining case, a claimed new address, the sender is recorded all the same.
  */
  lemma RefusalTrace(b: Block, op: Op)
    requires !Accepts(b, op)
    ensures StepPreProcess(b, op) == b <==> !Checks(b.env, op) || DidOf(op) in b.duplicated
    ensures StepPreProcess(b, op) != b ==>
              !(op.Targets() !! b.newAddresses) && StepPreProcess(b, op) == b.(duplicated := b.duplicated + {DidOf(op)})
  {
    hide Checks, DidOf, Op.Targets;
  }

  lemma {:induction false} RecordsOnlyGrow(b: Block, es: seq<Event>)
    ensures b.duplicated <= Run(b, es).duplicated && b.newAddresses <= Run(b, es).newAddresses
    ensures Run(b, es).env == b.env
  {
    hide Checks, DidOf, Op.Targets, BalanceWrites, AccountWrites, DesignWrites;
    if es != [] { RecordsOnlyGrow(b, es[..|es| - 1]); }
  }

  /**
    A creation refused because an address is already claimed has still used up its sender: for the
    rest of the block no operation of that sender is accepted, whatever else happens.
  */
  lemma RefusedCreationBlocksSender(b: Block, op: Op, es: seq<Event>, next: Op)
    requires Checks(b.env, op) && DidOf(op) !in b.duplicated && !(op.Targets() !! b.newAddresses)
    requires DidOf(next) == DidOf(op)
    ensures !Accepts(b, op) && !Accepts(Run(StepPreProcess(b, op), es), next)
  {
    hide Checks, DidOf, Op.Targets, Run;
    RecordsOnlyGrow(StepPreProcess(b, op), es);
  }

  // ---------------------------------------------------------------- two accounts claim one address

  const MCC: CurrencyID := "MCC"

  function MccDesign(a: Address): Design {
    Design(MCC, 20, Some(a), Policy(0, NilFeeer))
  }

  /** Two funded accounts, one currency without fees. */
  function TwoAccounts(ka: Keys, kb: Keys): Env {
    var designs := map[MCC := MccDesign(ka.h)];
    Env(Ledger(map[ka.h := Account(ka.h, ka), kb.h := Account(kb.h, kb)],
               map[BK(ka.h, MCC) := 10, BK(kb.h, MCC) := 10],
               designs),
        designs, [], 0)
  }

  /** The owner of k creates the account of kn. */
  function Creation(k: Keys, kn: Keys): Op {
    CreateAccounts(k.h, [NewAccount(kn, [Amount(MCC, 5)])], Publickeys(k.keys))
  }

  ghost predicate ThreeOwners(ka: Keys, kb: Keys, kn: Keys) {
    Valid(ka) && Valid(kb) && Valid(kn) && ka.h != kb.h && kn.h != ka.h && kn.h != kb.h
  }

  lemma TwoAccountsSupply(ka: Keys, kb: Keys)
    requires ka.h != kb.h
    ensures Supply(TwoAccounts(ka, kb).base.balances, MCC) == 20
  {
    var m := TwoAccounts(ka, kb).base.balances;
    var a, b := BK(ka.h, MCC), BK(kb.h, MCC);
    var f := AmountIn(m, MCC);
    assert m.Keys == {} + {a} + {b};
    SumInsert({} + {a}, f, b);
    SumInsert({}, f, a);
  }

  lemma TwoAccountsGood(ka: Keys, kb: Keys)
    requires Valid(ka) && Valid(kb) && ka.h != kb.h
    ensures GoodEnv(TwoAccounts(ka, kb))
  {
    TwoAccountsSupply(ka, kb);
    hide Valid, Supply;
  }

  lemma CreationFacts(k: Keys, kn: Keys)
    ensures var op := Creation(k, kn);
            && op.Payments() == [Payment(kn.h, [Amount(MCC, 5)])]
            && Flatten(op.Payments()) == [Pay(kn.h, Amount(MCC, 5))]
            && op.Targets() == {kn.h} && DidOf(op) == SenderDid(k.h)
  {
    var ps := Creation(k, kn).Payments();
    assert ps == [Payment(kn.h, [Amount(MCC, 5)])];
    assert Flatten([]) == [] && ps[..0] == [];
    assert PaysOf(ps[0]) == [Pay(kn.h, Amount(MCC, 5))];
  }

  lemma CreationValid(k: Keys, kn: Keys)
    requires Valid(k) && Valid(kn) && k.h != kn.h
    ensures Creation(k, kn).IsValid()
  {
    hide Valid;
    CreationFacts(k, kn);
    AllKeysPass(k);
  }

  lemma CreationPasses(env: Env, ka: Keys, kb: Keys, k: Keys, kn: Keys)
    requires ThreeOwners(ka, kb, kn) && env == TwoAccounts(ka, kb) && (k == ka || k == kb)
    ensures Checks(env, Creation(k, kn))
  {
    hide Valid, PassesThreshold, Flatten, Op.Payments;
    CreationFacts(k, kn);
    AllKeysPass(k);
    var pays := [Pay(kn.h, Amount(MCC, 5))];
    assert pays[..0] == [];
    assert Owed(env.cp, pays, MCC) == 5;
  }

  lemma RunTwo(b: Block, e: Event, f: Event)
    ensures Run(b, [e, f]) == Step(Step(b, e), f)
  {
    hide Step;
    assert [e, f][..1] == [e] && [e][..0] == [];
    assert Run(b, [e]) == Step(b, e);
  }

  /** Of two creations that claim a common address the first is accepted and both senders are recorded. */
  lemma TwoClaims(env: Env, x: Op, y: Op, es: seq<Event>, next: Op)
    requires Checks(env, x) && Checks(env, y) && DidOf(x) != DidOf(y) && !(y.Targets() !! x.Targets())
    requires DidOf(next) == DidOf(y)
    ensures var b := Run(Fresh(env), [PreProcess(x), PreProcess(y)]);
            && b.ready == {x} && b.duplicated == {DidOf(x), DidOf(y)} && !Accepts(Run(b, es), next)
  {
    hide Checks, Op.Targets, DidOf;
    var one := StepPreProcess(Fresh(env), x);
    assert one.newAddresses == x.Targets();
    RunTwo(Fresh(env), PreProcess(x), PreProcess(y));
    RefusedCreationBlocksSender(one, y, es, next);
  }

  /**
    Such a refusal happens: two accounts create the same address, both checks pass, the second
    creation is refused, and its sender can do nothing more in the block.
  */
  lemma ContestedAddress(ka: Keys, kb: Keys, kn: Keys, es: seq<Event>, next: Op)
    requires ThreeOwners(ka, kb, kn) && DidOf(next) == SenderDid(kb.h)
    ensures var env := TwoAccounts(ka, kb);
            var x, y := Creation(ka, kn), Creation(kb, kn);
            var b := Run(Fresh(env), [PreProcess(x), PreProcess(y)]);
            && GoodEnv(env) && x.IsValid() && y.IsValid() && Checks(env, x) && Checks(env, y)
            && b.ready == {x} && b.duplicated == {SenderDid(ka.h), SenderDid(kb.h)}
            && !Accepts(Run(b, es), next)
  {
    var env := TwoAccounts(ka, kb);
    var x, y := Creation(ka, kn), Creation(kb, kn);
    TwoAccountsGood(ka, kb);
    CreationValid(ka, kn);
    CreationValid(kb, kn);
    CreationPasses(env, ka, kb, ka, kn);
    CreationPasses(env, ka, kb, kb, kn);
    CreationFacts(ka, kn);
    CreationFacts(kb, kn);
    hide Valid, Checks, Op.IsValid, Op.Targets, GoodEnv, TwoAccounts, Creation, Run, Accepts, DidOf;
    assert kn.h in y.Targets() && kn.h in x.Targets();
    TwoClaims(env, x, y, es, next);
  }

  // ---------------------------------------------------------------- the state is reached by a chain

  /** The genesis account has everything and gives half of it to a new account. */
  function FirstBlock(ka: Keys, kb: Keys): Op {
    CreateAccounts(ka.h, [NewAccount(kb, [Amount(MCC, 10)])], Publickeys(ka.keys))
  }

  function TwoAccountsChain(ka: Keys, kb: Keys): Chain {
    Next(Genesis(ka, [MccDesign(ka.h)]), Suffrage([], 0), [PreProcess(FirstBlock(ka, kb)), Process(FirstBlock(ka, kb))])
  }

  function GenesisEnv(ka: Keys): Env {
    var designs := map[MCC := MccDesign(ka.h)];
    Env(Ledger(map[ka.h := Account(ka.h, ka)], map[BK(ka.h, MCC) := 20], designs), designs, [], 0)
  }

  lemma FirstBlockFacts(ka: Keys, kb: Keys)
    ensures var op := FirstBlock(ka, kb);
            && op.Payments() == [Payment(kb.h, [Amount(MCC, 10)])]
            && Flatten(op.Payments()) == [Pay(kb.h, Amount(MCC, 10))]
            && op.Targets() == {kb.h} && Created(op.accounts) == map[kb.h := Account(kb.h, kb)]
  {
    var op := FirstBlock(ka, kb);
    var ps := op.Payments();
    assert ps == [Payment(kb.h, [Amount(MCC, 10)])];
    assert Flatten([]) == [] && ps[..0] == [] && op.accounts[..0] == [];
    assert PaysOf(ps[0]) == [Pay(kb.h, Amount(MCC, 10))];
  }

  lemma FirstBlockPasses(ka: Keys, kb: Keys)
    requires Valid(ka) && Valid(kb) && ka.h != kb.h
    ensures FirstBlock(ka, kb).IsValid() && Checks(GenesisEnv(ka), FirstBlock(ka, kb))
  {
    hide Valid, PassesThreshold, Flatten, Op.Payments;
    FirstBlockFacts(ka, kb);
    AllKeysPass(ka);
    var pays := [Pay(kb.h, Amount(MCC, 10))];
    assert pays[..0] == [];
    assert Owed(GenesisEnv(ka).cp, pays, MCC) == 10;
  }

  lemma FirstBlockWrites(ka: Keys, kb: Keys)
    requires ka.h != kb.h
    ensures var env, op := GenesisEnv(ka), FirstBlock(ka, kb);
            && PostAll(map[], BalanceWrites(env, op)) == map[BK(kb.h, MCC) := Bal(10, 0), BK(ka.h, MCC) := Bal(10, 0)]
            && TallyAll(map[], BalanceWrites(env, op)) == map[]
  {
    FirstBlockStates(ka, kb);
    PostedTwo(AmountState(BK(kb.h, MCC), None, 10, 0), AmountState(BK(ka.h, MCC), Some(20), -10, 0));
    hide BalanceWrites, PostAll, TallyAll, GenesisEnv, FirstBlock;
  }

  lemma FirstBlockStates(ka: Keys, kb: Keys)
    requires ka.h != kb.h
    ensures BalanceWrites(GenesisEnv(ka), FirstBlock(ka, kb)) ==
            [AmountState(BK(kb.h, MCC), None, 10, 0), AmountState(BK(ka.h, MCC), Some(20), -10, 0)]
  {
    var env, op := GenesisEnv(ka), FirstBlock(ka, kb);
    FirstBlockFacts(ka, kb);
    hide Flatten, Op.Payments;
    var pay := Pay(kb.h, Amount(MCC, 10));
    assert [pay][..0] == [];
    var x, y := Credit(env.base, pay), Debit(env, ka.h, pay.am);
    assert PayWrites(env, ka.h, []) == [];
    assert PayWrites(env, ka.h, [pay]) == [] + [x] + [y];
    assert BalanceWrites(env, op) == [x, y];
  }

  lemma PostedTwo(x: AmountState, y: AmountState)
    requires x.key != y.key && x.fee == y.fee == 0
    ensures PostAll(map[], [x, y]) ==
            map[x.key := Bal(x.value.GetOr(0) + x.add, 0), y.key := Bal(y.value.GetOr(0) + y.add, 0)]
    ensures TallyAll(map[], [x, y]) == map[]
  {
    assert [x, y][..1] == [x] && [x][..0] == [];
    assert PostAll(map[], [x]) == Post(map[], x) && TallyAll(map[], [x]) == map[];
  }

  lemma GenesisReached(ka: Keys)
    ensures NodeAfter(Genesis(ka, [MccDesign(ka.h)])) == Node(GenesisEnv(ka).base, GenesisEnv(ka).cp)
  {
    var ds := [MccDesign(ka.h)];
    assert ds[..0] == [];
    assert DesignsOf([]) == map[] && SuppliesOf(ka.h, []) == map[];
  }

  /** A block with one operation that passes its checks. */
  lemma SingleOperation(env: Env, op: Op)
    requires Checks(env, op)
    ensures var b := Run(Fresh(env), [PreProcess(op), Process(op)]);
            var sts := BalanceWrites(env, op);
            && b.env == env && b.bal == PostAll(map[], sts) && b.fee == TallyAll(map[], sts)
            && b.acc == AccountWrites(env, op) && b.des == DesignWrites(env, op)
  {
    hide Checks, BalanceWrites, AccountWrites, DesignWrites, PostAll, TallyAll, DidOf, Op.Targets;
    RunTwo(Fresh(env), PreProcess(op), Process(op));
    assert op in StepPreProcess(Fresh(env), op).ready;
  }

  lemma NoFeesPaid(b: Block)
    requires b.fee == map[]
    ensures Payable(b) && Paid(b) == b.bal
  {}

  lemma FirstBlockSaved(ka: Keys, kb: Keys)
    requires Valid(ka) && Valid(kb) && ka.h != kb.h
    ensures var b := Run(Fresh(GenesisEnv(ka)), [PreProcess(FirstBlock(ka, kb)), Process(FirstBlock(ka, kb))]);
            Payable(b) && b.des == map[] && Commit(b) == TwoAccounts(ka, kb).base
  {
    var op := FirstBlock(ka, kb);
    FirstBlockPasses(ka, kb);
    FirstBlockWrites(ka, kb);
    FirstBlockFacts(ka, kb);
    SingleOperation(GenesisEnv(ka), op);
    var b := Run(Fresh(GenesisEnv(ka)), [PreProcess(op), Process(op)]);
    NoFeesPaid(b);
    hide Checks, Valid, Op.IsValid, BalanceWrites, PostAll, TallyAll, Op.Targets, Created, Run, Payable, Paid, Fresh, Commit;
    FirstBlockLedger(b, ka, kb);
  }

  lemma FirstBlockLedger(b: Block, ka: Keys, kb: Keys)
    requires ka.h != kb.h && b.env == GenesisEnv(ka) && b.acc == map[kb.h := Account(kb.h, kb)] && b.des == map[]
    requires Paid(b) == map[BK(kb.h, MCC) := Bal(10, 0), BK(ka.h, MCC) := Bal(10, 0)]
    ensures Commit(b) == TwoAccounts(ka, kb).base
  {
    hide Paid;
  }

  lemma ReachingChainValid(ka: Keys, kb: Keys)
    requires Valid(ka) && Valid(kb) && ka.h != kb.h
    ensures ValidChain(TwoAccountsChain(ka, kb))
  {
    FirstBlockPasses(ka, kb);
    assert MccDesign(ka.h).IsValid();
    hide Valid, Checks, Op.IsValid, ValidCurrencyID;
  }

  /** A genesis block and one creation lead to the two accounts of the contest. */
  lemma TwoAccountsReached(ka: Keys, kb: Keys)
    requires Valid(ka) && Valid(kb) && ka.h != kb.h
    ensures ValidChain(TwoAccountsChain(ka, kb))
    ensures EnvOf(NodeAfter(TwoAccountsChain(ka, kb)), Suffrage([], 0)) == TwoAccounts(ka, kb)
  {
    ReachingChainValid(ka, kb);
    NodeReached(ka, kb);
    hide ValidChain, Valid, EnvOf, NodeAfter, TwoAccountsChain, TwoAccounts;
  }

  lemma NodeReached(ka: Keys, kb: Keys)
    requires Valid(ka) && Valid(kb) && ka.h != kb.h
    ensures EnvOf(NodeAfter(TwoAccountsChain(ka, kb)), Suffrage([], 0)) == TwoAccounts(ka, kb)
  {
    var first, es := Genesis(ka, [MccDesign(ka.h)]), [PreProcess(FirstBlock(ka, kb)), Process(FirstBlock(ka, kb))];
    GenesisReached(ka);
    assert EnvOf(NodeAfter(first), Suffrage([], 0)) == GenesisEnv(ka);
    FirstBlockSaved(ka, kb);
    NextNode(first, Suffrage([], 0), es);
    assert TwoAccountsChain(ka, kb) == Next(first, Suffrage([], 0), es);
    hide Valid, Run, Commit, Payable, Fresh, FirstBlock, NodeAfter, After, EnvOf, GenesisEnv, TwoAccounts, MccDesign;
    AfterFirstBlock(Run(Fresh(GenesisEnv(ka)), es), ka, kb);
  }

  lemma AfterFirstBlock(b: Block, ka: Keys, kb: Keys)
    requires Payable(b) && b.des == map[] && Commit(b) == TwoAccounts(ka, kb).base
    ensures EnvOf(After(Node(GenesisEnv(ka).base, GenesisEnv(ka).cp), b), Suffrage([], 0)) == TwoAccounts(ka, kb)
  {
    hide Payable, Commit;
  }

  lemma NextNode(c: Chain, suffrage: Suffrage, es: seq<Event>)
    ensures NodeAfter(Next(c, suffrage, es)) ==
            After(NodeAfter(c), Run(Fresh(EnvOf(NodeAfter(c), suffrage)), es))
  {
    hide After, Run;
  }
}
