/**
  The processors of the five operations.  PreProcess checks an operation against the snapshot and
  keeps what it read; Process turns that into the states handed to setState.
*/
module Processors {
  import opened Prelude
  import opened Feeers
  import opened StateKeys
  import opened AccountKeys
  import opened Facts
  import opened AmountStates
  import opened Ledgers
  import opened Effects
  import opened Pools
  import opened ItemFees

  /** The states written are the effects of the operation. */
  ghost predicate Writes(sts: seq<State>, env: Env, op: Op) {
    && Interchangeable(AmountsIn(sts), BalanceWrites(env, op))
    && AccountsIn(sts) == AccountWrites(env, op)
    && DesignsIn(sts) == DesignWrites(env, op)
  }

  // ---------------------------------------------------------------- signatures

  /** checkFactSignsByState */
  method CheckFactSignsByState(a: Address, signers: seq<Publickey>, pool: Statepool) returns (ok: bool)
    ensures ok <==> pool.GetAccount(a).Some? && PassesThreshold(signers, pool.GetAccount(a).value.keys)
  {
    var st := pool.GetAccount(a);
    if st.None? { return false; }
    ok := CheckThreshold(signers, st.value.keys);
  }

  /** checkFactSignsByPubs */
  method CheckFactSignsByPubs(pubs: seq<Publickey>, threshold: nat, signers: seq<Publickey>) returns (ok: bool)
    ensures ok <==> CountSuffrage(pubs, signers) >= threshold
  {
    var signed := 0;
    for i := 0 to |signers|
      invariant signed == CountSuffrage(pubs, signers[..i])
    {
      assert signers[..i + 1][..i] == signers[..i];
      ghost var before := signed;
      for j := 0 to |pubs|
        invariant signed == before && signers[i] !in pubs[..j]
      {
        if signers[i] == pubs[j] {
          signed := signed + 1;
          break;
        }
      }
      assert pubs[..|pubs|] == pubs;
    }
    assert signers[..|signers|] == signers;
    return signed >= threshold;
  }

  // ---------------------------------------------------------------- items

  /** The receiver balances read for the amounts of one item. */
  ghost predicate Read(base: Ledger, to: Address, ams: seq<Amount>, b: map<CurrencyID, AmountState>) {
    forall am :: am in ams ==>
      am.cid in b && b[am.cid] == NewAmountState(BK(to, am.cid), Lookup(base.balances, BK(to, am.cid)))
  }

  datatype TransfersItemProcessor = TransfersItemProcessor(item: Payment, rb: map<CurrencyID, AmountState>)

  datatype CreateAccountsItemProcessor = CreateAccountsItemProcessor(item: NewAccount, nb: map<CurrencyID, AmountState>)

  method PreProcessTransfersItem(cp: CurrencyPool, pool: Statepool, item: Payment)
    returns (r: Option<TransfersItemProcessor>)
    ensures r.Some? <==> pool.GetAccount(item.to).Some? && forall am :: am in item.amounts ==> am.cid in cp.demap
    ensures r.Some? ==> r.value.item == item && Read(pool.base, item.to, item.amounts, r.value.rb)
  {
    if pool.GetAccount(item.to).None? { return None; }
    var rb: map<CurrencyID, AmountState> := map[];
    for i := 0 to |item.amounts|
      invariant forall am :: am in item.amounts[..i] ==> am.cid in cp.demap
      invariant Read(pool.base, item.to, item.amounts[..i], rb)
    {
      var am := item.amounts[i];
      if !cp.Exists(am.cid) {
        assert am in item.amounts;
        return None;
      }
      rb := rb[am.cid := NewAmountState(BK(item.to, am.cid), pool.GetBalance(item.to, am.cid))];
    }
    assert item.amounts[..|item.amounts|] == item.amounts;
    return Some(TransfersItemProcessor(item, rb));
  }

  predicate MeetsMinimum(cp: Designs, am: Amount) {
    am.cid in cp && am.big >= cp[am.cid].policy.minBalance
  }

  /** An item of a creation that can be created: a new address and large enough amounts. */
  ghost predicate Creatable(base: Ledger, cp: Designs, item: NewAccount) {
    item.keys.h !in base.accounts && forall am :: am in item.amounts ==> MeetsMinimum(cp, am)
  }

  method PreProcessCreateAccountsItem(cp: CurrencyPool, pool: Statepool, item: NewAccount)
    returns (r: Option<CreateAccountsItemProcessor>)
    ensures r.Some? <==> Creatable(pool.base, cp.demap, item)
    ensures r.Some? ==> r.value.item == item && Read(pool.base, item.keys.h, item.amounts, r.value.nb)
  {
    for i := 0 to |item.amounts|
      invariant forall am :: am in item.amounts[..i] ==> MeetsMinimum(cp.demap, am)
    {
      var am := item.amounts[i];
      var policy := cp.GetPolicy(am.cid);
      if policy.None? || am.big < policy.value.minBalance {
        assert am in item.amounts;
        return None;
      }
    }
    assert item.amounts[..|item.amounts|] == item.amounts;
    var target := item.keys.h;
    if pool.GetAccount(target).Some? { return None; }
    var nb: map<CurrencyID, AmountState> := map[];
    for i := 0 to |item.amounts|
      invariant Read(pool.base, target, item.amounts[..i], nb)
    {
      var am := item.amounts[i];
      nb := nb[am.cid := NewAmountState(BK(target, am.cid), pool.GetBalance(target, am.cid))];
    }
    return Some(CreateAccountsItemProcessor(item, nb));
  }

  lemma CreditsAppend(base: Ledger, pays: seq<Pay>, pay: Pay)
    ensures Credits(base, pays + [pay]) == Credits(base, pays) + [Credit(base, pay)]
  {
    assert (pays + [pay])[..|pays|] == pays;
  }

  /** Credits each amount of an item to its receiver. */
  method CreditItem(ghost base: Ledger, p: Payment, b: map<CurrencyID, AmountState>, prefix: seq<State>, ghost pays: seq<Pay>)
    returns (sts: seq<State>)
    requires Read(base, p.to, p.amounts, b)
    requires AmountsIn(prefix) == Credits(base, pays)
    ensures AmountsIn(sts) == Credits(base, pays + PaysOf(p))
    ensures AccountsIn(sts) == AccountsIn(prefix) && DesignsIn(sts) == DesignsIn(prefix)
  {
    hide Credits, AmountsIn, AccountsIn, DesignsIn;
    sts := prefix;
    assert pays + PaysOf(p)[..0] == pays;
    for i := 0 to |p.amounts|
      invariant AmountsIn(sts) == Credits(base, pays + PaysOf(p)[..i])
      invariant AccountsIn(sts) == AccountsIn(prefix) && DesignsIn(sts) == DesignsIn(prefix)
    {
      var am := p.amounts[i];
      var st := BalanceWrite(b[am.cid].Add(am.big));
      CreditsAppend(base, pays + PaysOf(p)[..i], PaysOf(p)[i]);
      assert pays + PaysOf(p)[..i + 1] == pays + PaysOf(p)[..i] + [PaysOf(p)[i]];
      StatesAppend(sts, st);
      sts := sts + [st];
    }
    assert PaysOf(p)[..|p.amounts|] == PaysOf(p);
  }

  /** CreateAccountsItemProcessor.Process: the new account, then its credits. */
  method ProcessCreateAccountsItem(ghost base: Ledger, c: CreateAccountsItemProcessor, prefix: seq<State>, ghost pays: seq<Pay>)
    returns (sts: seq<State>)
    requires Read(base, c.item.keys.h, c.item.amounts, c.nb)
    requires AmountsIn(prefix) == Credits(base, pays)
    ensures AmountsIn(sts) == Credits(base, pays + PaysOf(c.item.ToPayment()))
    ensures AccountsIn(sts) == AccountsIn(prefix)[c.item.keys.h := Account(c.item.keys.h, c.item.keys)]
    ensures DesignsIn(sts) == DesignsIn(prefix)
  {
    hide Credits, AmountsIn, AccountsIn, DesignsIn, PaysOf;
    var keys := c.item.keys;
    var nac := AccountWrite(keys.h, Account(keys.h, keys));
    StatesAppend(prefix, nac);
    sts := CreditItem(base, c.item.ToPayment(), c.nb, prefix + [nac], pays);
  }

  // ---------------------------------------------------------------- the debits of the sender

  /** What PreProcess keeps for the sender of a list of items. */
  ghost predicate SenderReady(env: Env, payer: Address, pays: seq<Pay>, required: Required, sb: map<CurrencyID, AmountState>) {
    && IsRequired(required, env.cp, pays)
    && sb.Keys == required.Keys
    && forall c :: c in sb ==> sb[c] == NewAmountState(BK(payer, c), Lookup(env.base.balances, BK(payer, c)))
  }

  lemma DebitsAppend(env: Env, payer: Address, pays: seq<Pay>, cs: seq<CurrencyID>, c: CurrencyID)
    ensures Debits(env, payer, pays, cs + [c]) == Debits(env, payer, pays, cs) + [DebitAll(env, payer, pays, c)]
  {
    assert (cs + [c])[..|cs|] == cs;
  }

  /** One debit for each required currency, in whatever order the map gives them. */
  method DebitSender(ghost env: Env, ghost payer: Address, ghost pays: seq<Pay>,
                     required: Required, sb: map<CurrencyID, AmountState>, prefix: seq<State>)
    returns (sts: seq<State>)
    requires SenderReady(env, payer, pays, required, sb)
    requires AmountsIn(prefix) == Credits(env.base, pays)
    ensures Interchangeable(AmountsIn(sts), PayWrites(env, payer, pays))
    ensures AccountsIn(sts) == AccountsIn(prefix) && DesignsIn(sts) == DesignsIn(prefix)
  {
    ghost var cs: seq<CurrencyID> := [];
    assert Debits(env, payer, pays, cs) == [];
    hide Credits, Debits, AmountsIn, AccountsIn, DesignsIn, Interchangeable, Owed, FeesOwed, CurrenciesOf, PayWrites;
    sts := prefix;
    var todo := required.Keys;
    while todo != {}
      invariant todo <= required.Keys && NoRepeats(cs) && Members(cs) == required.Keys - todo
      invariant AmountsIn(sts) == Credits(env.base, pays) + Debits(env, payer, pays, cs)
      invariant AccountsIn(sts) == AccountsIn(prefix) && DesignsIn(sts) == DesignsIn(prefix)
    {
      var k :| k in todo;
      var rq := required[k];
      var st := BalanceWrite(sb[k].Sub(rq.0).AddFee(rq.1));
      assert st.am == DebitAll(env, payer, pays, k);
      DebitsAppend(env, payer, pays, cs, k);
      assert k !in Members(cs);
      OneMore(cs, k);
      StatesAppend(sts, st);
      sts := sts + [st];
      cs := cs + [k];
      todo := todo - {k};
    }
    ItemWritesInterchangeable(env, payer, pays, cs);
  }

  /** Registered currencies for all payments are registered currencies for every item. */
  lemma ItemsRegistered(cp: Designs, ps: seq<Payment>, p: Payment)
    requires CurrenciesOf(Flatten(ps)) <= cp.Keys && p in ps
    ensures forall am :: am in p.amounts ==> am.cid in cp
  {}

  /** What CheckEnoughBalance tests for the required map is CanPay. */
  lemma EnoughBalance(env: Env, payer: Address, pays: seq<Pay>, required: Required)
    requires IsRequired(required, env.cp, pays)
    ensures CanPay(env, payer, pays) <==> forall c :: c in required ==>
              var b := Lookup(env.base.balances, BK(payer, c));
              b.Some? && b.value >= required[c].0
  {
    hide Owed, FeesOwed;
  }

  // ---------------------------------------------------------------- Transfers

  class TransfersProcessor {
    const cp: CurrencyPool
    const op: Op
    var sb: map<CurrencyID, AmountState>
    var rb: seq<TransfersItemProcessor>
    var required: Required

    constructor (cp: CurrencyPool, op: Op)
      ensures this.cp == cp && this.op == op
    {
      this.cp, this.op := cp, op;
      sb, rb, required := map[], [], map[];
    }

    ghost predicate Prepared(env: Env)
      reads this
    {
      && op.Transfers?
      && SenderReady(env, op.sender, Flatten(op.items), required, sb)
      && |rb| == |op.items|
      && forall i :: 0 <= i < |rb| ==>
           rb[i].item == op.items[i] && Read(env.base, op.items[i].to, op.items[i].amounts, rb[i].rb)
    }

    method PreProcess(pool: Statepool, ghost env: Env) returns (ok: bool)
      requires op.Transfers? && env.base == pool.base && env.cp == cp.demap
      modifies this
      ensures ok <==> Checks(env, op)
      ensures ok ==> Prepared(env)
    {
      hide Flatten, Owed, FeesOwed, PassesThreshold, Read, IsRequired, CanPay, CurrenciesOf;
      var sender, items := op.sender, op.items;
      if pool.GetAccount(sender).None? { return false; }
      var rq := CalculateItemsFee(cp, items);
      if rq.None? { return false; }
      var b := CheckEnoughBalance(pool, sender, rq.value);
      EnoughBalance(env, sender, Flatten(items), rq.value);
      if b.None? { return false; }
      required, sb := rq.value, b.value;
      assert SenderReady(env, sender, Flatten(items), required, sb);
      var ns: seq<TransfersItemProcessor> := [];
      for i := 0 to |items|
        invariant |ns| == i && required == rq.value && sb == b.value
        invariant forall j :: 0 <= j < i ==> ns[j].item == items[j] && pool.GetAccount(items[j].to).Some?
        invariant forall j :: 0 <= j < i ==> Read(env.base, items[j].to, items[j].amounts, ns[j].rb)
      {
        ItemsRegistered(cp.demap, items, items[i]);
        var c := PreProcessTransfersItem(cp, pool, items[i]);
        if c.None? {
          assert items[i] in items && !Exists(env, items[i].to);
          return false;
        }
        ns := ns + [c.value];
      }
      var signed := CheckFactSignsByState(sender, op.signers, pool);
      if !signed { return false; }
      rb := ns;
      return true;
    }

    method Process(ghost env: Env) returns (sts: seq<State>)
      requires Prepared(env)
      ensures Writes(sts, env, op)
    {
      NothingPaid(env, op);
      hide Flatten, Credits, AmountsIn, AccountsIn, DesignsIn, Interchangeable, PayWrites, SenderReady, PaysOf;
      hide Debits;
      sts := [];
      for i := 0 to |rb|
        invariant AmountsIn(sts) == Credits(env.base, Flatten(op.items[..i]))
        invariant AccountsIn(sts) == map[] && DesignsIn(sts) == map[]
      {
        FlattenAppend(op.items[..i], op.items[i]);
        assert op.items[..i + 1] == op.items[..i] + [op.items[i]];
        sts := CreditItem(env.base, op.items[i], rb[i].rb, sts, Flatten(op.items[..i]));
      }
      assert op.items[..|rb|] == op.items;
      sts := DebitSender(env, op.sender, Flatten(op.items), required, sb, sts);
    }
  }

  lemma NothingPaid(env: Env, op: Op)
    requires op.Transfers?
    ensures AmountsIn([]) == Credits(env.base, Flatten(op.items[..0]))
    ensures AccountsIn([]) == map[] && DesignsIn([]) == map[]
  {}

  // ---------------------------------------------------------------- CreateAccounts

  lemma MinimumsPerItem(cp: Designs, ps: seq<Payment>)
    ensures (forall pay :: pay in Flatten(ps) ==> MeetsMinimum(cp, pay.am)) <==>
            (forall p :: p in ps ==> forall am :: am in p.amounts ==> MeetsMinimum(cp, am))
  {
    forall p, am | p in ps && am in p.amounts ensures Pay(p.to, am) in Flatten(ps) {
      FlattenContains(ps, p, am);
    }
    forall pay | pay in Flatten(ps) ensures exists p :: p in ps && pay.am in p.amounts {
      FlattenMeaning(ps, pay);
    }
  }

  lemma CreationChecks(env: Env, op: Op)
    requires op.CreateAccounts?
    ensures Checks(env, op) <==>
            && CurrenciesOf(Flatten(op.Payments())) <= env.cp.Keys
            && CanPay(env, op.sender, Flatten(op.Payments()))
            && (forall x :: x in op.accounts ==> Creatable(env.base, env.cp, x))
            && SignedBy(env, op.sender, op.signers)
  {
    hide CanPay, SignedBy, Flatten;
    var ps := op.Payments();
    MinimumsPerItem(env.cp, ps);
    forall x | x in op.accounts ensures x.ToPayment() in ps {
      var i :| 0 <= i < |op.accounts| && op.accounts[i] == x;
      assert ps[i] == x.ToPayment();
    }
    forall p | p in ps ensures exists x :: x in op.accounts && p == x.ToPayment() {
      var i :| 0 <= i < |ps| && ps[i] == p;
      assert op.accounts[i] in op.accounts;
    }
  }

  class CreateAccountsProcessor {
    const cp: CurrencyPool
    const op: Op
    var sb: map<CurrencyID, AmountState>
    var ns: seq<CreateAccountsItemProcessor>
    var required: Required

    constructor (cp: CurrencyPool, op: Op)
      ensures this.cp == cp && this.op == op
    {
      this.cp, this.op := cp, op;
      sb, ns, required := map[], [], map[];
    }

    ghost predicate Prepared(env: Env)
      reads this
    {
      && op.CreateAccounts?
      && SenderReady(env, op.sender, Flatten(op.Payments()), required, sb)
      && |ns| == |op.accounts|
      && forall i :: 0 <= i < |ns| ==>
           ns[i].item == op.accounts[i] && Read(env.base, op.accounts[i].keys.h, op.accounts[i].amounts, ns[i].nb)
    }

    method PreProcess(pool: Statepool, ghost env: Env) returns (ok: bool)
      requires op.CreateAccounts? && env.base == pool.base && env.cp == cp.demap
      modifies this
      ensures ok <==> Checks(env, op)
      ensures ok ==> Prepared(env)
    {
      CreationChecks(env, op);
      hide Flatten, PassesThreshold, Read, Checks, Op.Payments, IsRequired, CanPay, CurrenciesOf, Creatable, SignedBy;
      var sender, items := op.sender, op.accounts;
      if pool.GetAccount(sender).None? { return false; }
      var rq := CalculateItemsFee(cp, op.Payments());
      if rq.None? { return false; }
      var b := CheckEnoughBalance(pool, sender, rq.value);
      EnoughBalance(env, sender, Flatten(op.Payments()), rq.value);
      if b.None? { return false; }
      required, sb := rq.value, b.value;
      assert SenderReady(env, sender, Flatten(op.Payments()), required, sb);
      var cs := PreProcessItems(pool);
      if cs.None? { return false; }
      var signed := CheckFactSignsByState(sender, op.signers, pool);
      if !signed { return false; }
      ns := cs.value;
      return true;
    }

    method PreProcessItems(pool: Statepool) returns (r: Option<seq<CreateAccountsItemProcessor>>)
      requires op.CreateAccounts?
      ensures r.Some? <==> forall x :: x in op.accounts ==> Creatable(pool.base, cp.demap, x)
      ensures r.Some? ==> |r.value| == |op.accounts|
      ensures r.Some? ==> forall i :: 0 <= i < |op.accounts| ==>
                r.value[i].item == op.accounts[i] &&
                Read(pool.base, op.accounts[i].keys.h, op.accounts[i].amounts, r.value[i].nb)
    {
      hide Creatable, Read;
      var items := op.accounts;
      var cs: seq<CreateAccountsItemProcessor> := [];
      for i := 0 to |items|
        invariant |cs| == i
        invariant forall j :: 0 <= j < i ==> cs[j].item == items[j] && Creatable(pool.base, cp.demap, items[j])
        invariant forall j :: 0 <= j < i ==> Read(pool.base, items[j].keys.h, items[j].amounts, cs[j].nb)
      {
        var c := PreProcessCreateAccountsItem(cp, pool, items[i]);
        if c.None? {
          assert items[i] in items;
          return None;
        }
        cs := cs + [c.value];
      }
      return Some(cs);
    }

    /** The account of each item, then its credits; the debits come last. */
    method Process(ghost env: Env) returns (sts: seq<State>)
      requires Prepared(env)
      ensures Writes(sts, env, op)
    {
      ghost var ps := op.Payments();
      NothingCreated(env, op);
      hide Flatten, Credits, AmountsIn, AccountsIn, DesignsIn, Created, Interchangeable, PayWrites, SenderReady;
      hide PaysOf, Debits, Op.Payments;
      sts := [];
      for i := 0 to |ns|
        invariant AmountsIn(sts) == Credits(env.base, Flatten(ps[..i]))
        invariant AccountsIn(sts) == Created(op.accounts[..i]) && DesignsIn(sts) == map[]
      {
        OneMoreAccount(op, i);
        sts := ProcessCreateAccountsItem(env.base, ns[i], sts, Flatten(ps[..i]));
      }
      assert ps[..|ns|] == ps && op.accounts[..|ns|] == op.accounts;
      sts := DebitSender(env, op.sender, Flatten(ps), required, sb, sts);
    }
  }

  lemma NothingCreated(env: Env, op: Op)
    requires op.CreateAccounts?
    ensures |op.Payments()| == |op.accounts|
    ensures AmountsIn([]) == Credits(env.base, Flatten(op.Payments()[..0]))
    ensures AccountsIn([]) == Created(op.accounts[..0]) && DesignsIn([]) == map[]
  {}

  lemma OneMoreAccount(op: Op, i: nat)
    requires op.CreateAccounts? && i < |op.accounts| == |op.Payments()|
    ensures var x := op.accounts[i];
            && Flatten(op.Payments()[..i + 1]) == Flatten(op.Payments()[..i]) + PaysOf(x.ToPayment())
            && Created(op.accounts[..i + 1]) == Created(op.accounts[..i])[x.keys.h := Account(x.keys.h, x.keys)]
  {
    hide Flatten, Created, PaysOf;
    var ps, xs := op.Payments(), op.accounts;
    FlattenAppend(ps[..i], ps[i]);
    assert ps[..i + 1] == ps[..i] + [ps[i]];
    CreatedAppend(xs[..i], xs[i]);
    assert xs[..i + 1] == xs[..i] + [xs[i]];
  }

  lemma CreatedAppend(accounts: seq<NewAccount>, x: NewAccount)
    ensures Created(accounts + [x]) == Created(accounts)[x.keys.h := Account(x.keys.h, x.keys)]
  {
    assert (accounts + [x])[..|accounts|] == accounts;
  }

  lemma TwoStates(x: State, y: State)
    ensures AmountsIn([x, y]) == (if x.BalanceWrite? then [x.am] else []) + if y.BalanceWrite? then [y.am] else []
    ensures AccountsIn([x, y]) == (if x.AccountWrite? then map[x.address := x.account] else map[]) +
                                  if y.AccountWrite? then map[y.address := y.account] else map[]
    ensures DesignsIn([x, y]) == (if x.DesignWrite? then map[x.cid := x.design] else map[]) +
                                 if y.DesignWrite? then map[y.cid := y.design] else map[]
  {
    StatesAppend([], x);
    StatesAppend([x], y);
    assert [] + [x] == [x] && [x] + [y] == [x, y];
  }

  // ---------------------------------------------------------------- KeyUpdater

  class KeyUpdaterProcessor {
    const cp: CurrencyPool
    const op: Op
    var sa: Option<Account>
    var sb: AmountState
    var fee: int

    constructor (cp: CurrencyPool, op: Op)
      ensures this.cp == cp && this.op == op
    {
      this.cp, this.op := cp, op;
      sa, sb, fee := None, NewAmountState(BK("", ""), None), 0;
    }

    ghost predicate Prepared(env: Env)
      reads this
    {
      && op.KeyUpdater? && Exists(env, op.target) && op.cid in env.cp
      && sa == Some(env.base.accounts[op.target])
      && sb == NewAmountState(BK(op.target, op.cid), Lookup(env.base.balances, BK(op.target, op.cid)))
      && fee == env.cp[op.cid].policy.feeer.Fee(0)
    }

    method PreProcess(pool: Statepool, ghost env: Env) returns (ok: bool)
      requires op.KeyUpdater? && env.base == pool.base && env.cp == cp.demap
      modifies this
      ensures ok <==> Checks(env, op)
      ensures ok ==> Prepared(env)
    {
      hide Feeer.Fee, PassesThreshold, KeysEqual;
      sa := pool.GetAccount(op.target);
      if sa.None? || KeysEqual(sa.value.keys, op.keys) { return false; }
      var st := pool.GetBalance(op.target, op.cid);
      if st.None? { return false; }
      sb := NewAmountState(BK(op.target, op.cid), st);
      var signed := CheckFactSignsByState(op.target, op.signers, pool);
      if !signed { return false; }
      var feeer := cp.GetFeeer(op.cid);
      if feeer.None? { return false; }
      var f := feeer.value.Fee(0);
      if st.value < f { return false; }
      fee := f;
      return true;
    }

    /** The debit is kept in the processor itself, so a second call would debit twice. */
    method Process(ghost env: Env) returns (sts: seq<State>)
      requires Prepared(env)
      modifies this
      ensures Writes(sts, env, op)
    {
      hide Feeer.Fee;
      sb := sb.Sub(fee).AddFee(fee);
      var st := AccountWrite(op.target, sa.value.(keys := op.keys));
      sts := [st, BalanceWrite(sb)];
      TwoStates(st, BalanceWrite(sb));
      assert AmountsIn(sts) == BalanceWrites(env, op);
    }
  }

  // ---------------------------------------------------------------- CurrencyRegister

  class CurrencyRegisterProcessor {
    const cp: CurrencyPool
    const pubs: seq<Publickey>
    const threshold: nat
    const op: Op
    var ga: AmountState

    constructor (cp: CurrencyPool, pubs: seq<Publickey>, threshold: nat, op: Op)
      ensures this.cp == cp && this.pubs == pubs && this.threshold == threshold && this.op == op
    {
      this.cp, this.pubs, this.threshold, this.op := cp, pubs, threshold, op;
      ga := NewAmountState(BK("", ""), None);
    }

    ghost predicate Prepared(env: Env)
      reads this
    {
      && op.CurrencyRegister? && op.design.genesisAccount.Some?
      && var k := BK(op.design.genesisAccount.value, op.design.cid);
         ga == NewAmountState(k, Lookup(env.base.balances, k))
    }

    method PreProcess(pool: Statepool, ghost env: Env) returns (ok: bool)
      requires op.CurrencyRegister? && op.design.genesisAccount.Some?
      requires env == Env(pool.base, cp.demap, pubs, threshold)
      modifies this
      ensures ok <==> Checks(env, op)
      ensures ok ==> Prepared(env)
    {
      hide CountSuffrage;
      var item := op.design;
      if |pubs| < 1 { return false; }
      var signed := CheckFactSignsByPubs(pubs, threshold, op.signers);
      if !signed || cp.Exists(item.cid) { return false; }
      var genesisAccount := item.genesisAccount.value;
      if pool.GetAccount(genesisAccount).None? { return false; }
      var receiver := item.policy.feeer.Receiver();
      if receiver.Some? && pool.GetAccount(receiver.value).None? { return false; }
      if pool.GetDesign(item.cid).Some? { return false; }
      var st := pool.GetBalance(genesisAccount, item.cid);
      if st.Some? { return false; }
      ga := NewAmountState(BK(genesisAccount, item.cid), st);
      return true;
    }

    method Process(ghost env: Env) returns (sts: seq<State>)
      requires Prepared(env)
      ensures Writes(sts, env, op)
    {
      var st := BalanceWrite(ga.Add(op.design.supply));
      sts := [st, DesignWrite(op.design.cid, op.design)];
      TwoStates(st, DesignWrite(op.design.cid, op.design));
      assert AmountsIn(sts) == BalanceWrites(env, op);
    }
  }

  // ---------------------------------------------------------------- CurrencyPolicyUpdater

  class CurrencyPolicyUpdaterProcessor {
    const cp: CurrencyPool
    const pubs: seq<Publickey>
    const threshold: nat
    const op: Op
    var de: Option<Design>

    constructor (cp: CurrencyPool, pubs: seq<Publickey>, threshold: nat, op: Op)
      ensures this.cp == cp && this.pubs == pubs && this.threshold == threshold && this.op == op
    {
      this.cp, this.pubs, this.threshold, this.op := cp, pubs, threshold, op;
      de := None;
    }

    ghost predicate Prepared(env: Env)
      reads this
    {
      op.CurrencyPolicyUpdater? && op.cid in env.base.designs && de == Some(env.base.designs[op.cid])
    }

    method PreProcess(pool: Statepool, ghost env: Env) returns (ok: bool)
      requires op.CurrencyPolicyUpdater? && env == Env(pool.base, cp.demap, pubs, threshold)
      modifies this
      ensures ok <==> Checks(env, op)
      ensures ok ==> Prepared(env)
    {
      hide CountSuffrage;
      if |pubs| < 1 { return false; }
      var signed := CheckFactSignsByPubs(pubs, threshold, op.signers);
      if !signed || !cp.Exists(op.cid) { return false; }
      var receiver := op.policy.feeer.Receiver();
      if receiver.Some? && pool.GetAccount(receiver.value).None? { return false; }
      de := pool.GetDesign(op.cid);
      return de.Some?;
    }

    method Process(ghost env: Env) returns (sts: seq<State>)
      requires Prepared(env)
      ensures Writes(sts, env, op)
    {
      sts := [DesignWrite(op.cid, de.value.SetPolicy(op.policy))];
      assert sts[..0] == [];
    }
  }
}
