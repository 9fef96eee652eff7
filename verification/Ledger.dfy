/**
  What the operation processor does to a block, as a state machine.  A block starts from a snapshot
  of the ledger; every operation is checked against that snapshot when it is pre-processed and
  writes deltas when it is processed.  The steps of different operations interleave freely.
*/
module Ledgers {
  import opened Prelude
  import opened Feeers
  import opened StateKeys
  import opened AccountKeys
  import opened Facts
  import opened AmountStates

  type Designs = map<CurrencyID, Design>

  datatype Ledger = Ledger(
    accounts: map<Address, Account>,
    balances: map<BalanceKey, int>,
    designs: Designs)

  /** What an operation is checked against: snapshot, currency pool, and the suffrage nodes. */
  datatype Env = Env(base: Ledger, cp: Designs, pubs: seq<Publickey>, quorum: nat)

  // ---------------------------------------------------------------- fees

  datatype Pay = Pay(to: Address, am: Amount)

  function PaysOf(p: Payment): (r: seq<Pay>)
    ensures |r| == |p.amounts| && forall j :: 0 <= j < |r| ==> r[j] == Pay(p.to, p.amounts[j])
  {
    seq(|p.amounts|, j requires 0 <= j < |p.amounts| => Pay(p.to, p.amounts[j]))
  }

  function Flatten(ps: seq<Payment>): seq<Pay> {
    if ps == [] then [] else Flatten(ps[..|ps| - 1]) + PaysOf(ps[|ps| - 1])
  }

  /** The fee for one amount; a policy that asks for nothing or less adds nothing. */
  function FeeOn(cp: Designs, am: Amount): (f: int)
    ensures f >= 0
  {
    if am.cid !in cp then 0
    else
      var k := cp[am.cid].policy.feeer.Fee(am.big);
      if k > 0 then k else 0
  }

  function ReceiverOf(cp: Designs, c: CurrencyID): Option<Address> {
    if c in cp then cp[c].policy.feeer.Receiver() else None
  }

  /** What the sender owes in currency c: amounts and fees. */
  function Owed(cp: Designs, pays: seq<Pay>, c: CurrencyID): int {
    if pays == [] then 0
    else
      var am := pays[|pays| - 1].am;
      Owed(cp, pays[..|pays| - 1], c) + if am.cid == c then am.big + FeeOn(cp, am) else 0
  }

  /** The fees alone. */
  function FeesOwed(cp: Designs, pays: seq<Pay>, c: CurrencyID): int {
    if pays == [] then 0
    else
      var am := pays[|pays| - 1].am;
      FeesOwed(cp, pays[..|pays| - 1], c) + if am.cid == c then FeeOn(cp, am) else 0
  }

  /** What the receiver of key k gets. */
  function Credited(pays: seq<Pay>, k: BalanceKey): int {
    if pays == [] then 0
    else
      var pay := pays[|pays| - 1];
      Credited(pays[..|pays| - 1], k) + if BK(pay.to, pay.am.cid) == k then pay.am.big else 0
  }

  function CurrenciesOf(pays: seq<Pay>): set<CurrencyID> {
    set p | p in pays :: p.am.cid
  }

  // ---------------------------------------------------------------- checks against the snapshot

  predicate Exists(env: Env, a: Address) {
    a in env.base.accounts
  }

  predicate SignedBy(env: Env, a: Address, signers: seq<Publickey>) {
    Exists(env, a) && PassesThreshold(signers, env.base.accounts[a].keys)
  }

  function CountSuffrage(pubs: seq<Publickey>, signers: seq<Publickey>): nat {
    if signers == [] then 0
    else CountSuffrage(pubs, signers[..|signers| - 1]) + if signers[|signers| - 1] in pubs then 1 else 0
  }

  predicate SignedBySuffrage(env: Env, signers: seq<Publickey>) {
    env.pubs != [] && CountSuffrage(env.pubs, signers) >= env.quorum
  }

  predicate ReceiverExists(env: Env, po: Policy) {
    po.feeer.Receiver().Some? ==> Exists(env, po.feeer.Receiver().value)
  }

  /** CheckEnoughBalance: the snapshot covers everything the sender owes, currency by currency. */
  predicate CanPay(env: Env, payer: Address, pays: seq<Pay>) {
    forall c :: c in CurrenciesOf(pays) ==>
      && BK(payer, c) in env.base.balances
      && env.base.balances[BK(payer, c)] >= Owed(env.cp, pays, c)
  }

  predicate Checks(env: Env, op: Op) {
    match op
    case Transfers(sender, items, signers) =>
      && CurrenciesOf(Flatten(items)) <= env.cp.Keys
      && CanPay(env, sender, Flatten(items))
      && (forall p :: p in items ==> Exists(env, p.to))
      && SignedBy(env, sender, signers)
    case CreateAccounts(sender, accounts, signers) =>
      var pays := Flatten(op.Payments());
      && CurrenciesOf(pays) <= env.cp.Keys
      && CanPay(env, sender, pays)
      && (forall x :: x in accounts ==> !Exists(env, x.keys.h))
      && (forall p :: p in pays ==> p.am.cid in env.cp && p.am.big >= env.cp[p.am.cid].policy.minBalance)
      && SignedBy(env, sender, signers)
    case KeyUpdater(target, keys, cid, signers) =>
      && Exists(env, target)
      && !KeysEqual(env.base.accounts[target].keys, keys)
      && BK(target, cid) in env.base.balances
      && SignedBy(env, target, signers)
      && cid in env.cp
      && env.base.balances[BK(target, cid)] >= env.cp[cid].policy.feeer.Fee(0)
    case CurrencyRegister(design, signers) =>
      && SignedBySuffrage(env, signers)
      && design.cid !in env.cp
      && design.genesisAccount.Some? && Exists(env, design.genesisAccount.value)
      && ReceiverExists(env, design.policy)
      && design.cid !in env.base.designs
      && BK(design.genesisAccount.value, design.cid) !in env.base.balances
    case CurrencyPolicyUpdater(cid, policy, signers) =>
      && SignedBySuffrage(env, signers)
      && cid in env.cp
      && ReceiverExists(env, policy)
      && cid in env.base.designs
  }

  // ---------------------------------------------------------------- effects

  function Credit(base: Ledger, pay: Pay): AmountState {
    var k := BK(pay.to, pay.am.cid);
    NewAmountState(k, Lookup(base.balances, k)).Add(pay.am.big)
  }

  function Debit(env: Env, payer: Address, am: Amount): AmountState {
    var k := BK(payer, am.cid);
    NewAmountState(k, Lookup(env.base.balances, k)).Sub(am.big + FeeOn(env.cp, am)).AddFee(FeeOn(env.cp, am))
  }

  /** Amount by amount: credit the receiver, debit the payer with the fee. */
  function PayWrites(env: Env, payer: Address, pays: seq<Pay>): seq<AmountState> {
    if pays == [] then []
    else
      var pay := pays[|pays| - 1];
      PayWrites(env, payer, pays[..|pays| - 1]) + [Credit(env.base, pay)] + [Debit(env, payer, pay.am)]
  }

  /** The balance writes of an operation. */
  function BalanceWrites(env: Env, op: Op): seq<AmountState> {
    match op
    case Transfers(sender, items, _) => PayWrites(env, sender, Flatten(items))
    case CreateAccounts(sender, _, _) => PayWrites(env, sender, Flatten(op.Payments()))
    case KeyUpdater(target, _, cid, _) =>
      var k := BK(target, cid);
      var fee := if cid in env.cp then env.cp[cid].policy.feeer.Fee(0) else 0;
      [NewAmountState(k, Lookup(env.base.balances, k)).Sub(fee).AddFee(fee)]
    case CurrencyRegister(design, _) =>
      if design.genesisAccount.None? then [] else
        var k := BK(design.genesisAccount.value, design.cid);
        [NewAmountState(k, Lookup(env.base.balances, k)).Add(design.supply)]
    case CurrencyPolicyUpdater(_, _, _) => []
  }

  function AccountWrites(env: Env, op: Op): map<Address, Account> {
    match op
    case CreateAccounts(_, accounts, _) => Created(accounts)
    case KeyUpdater(target, keys, _, _) =>
      if Exists(env, target) then map[target := env.base.accounts[target].(keys := keys)] else map[]
    case _ => map[]
  }

  /** The new accounts, each under the hash of its keys. */
  function Created(accounts: seq<NewAccount>): map<Address, Account> {
    if accounts == [] then map[]
    else
      var keys := accounts[|accounts| - 1].keys;
      Created(accounts[..|accounts| - 1])[keys.h := Account(keys.h, keys)]
  }

  function DesignWrites(env: Env, op: Op): Designs {
    match op
    case CurrencyRegister(design, _) => map[design.cid := design]
    case CurrencyPolicyUpdater(cid, policy, _) =>
      if cid in env.base.designs then map[cid := env.base.designs[cid].SetPolicy(policy)] else map[]
    case _ => map[]
  }

  // ---------------------------------------------------------------- the block

  /** What an operation may be submitted for only once per block. */
  datatype Did = SenderDid(a: Address) | CurrencyDid(c: CurrencyID)

  function DidOf(op: Op): Did {
    match op
    case Transfers(sender, _, _) => SenderDid(sender)
    case CreateAccounts(sender, _, _) => SenderDid(sender)
    case KeyUpdater(target, _, _, _) => SenderDid(target)
    case CurrencyRegister(design, _) => CurrencyDid(design.cid)
    case CurrencyPolicyUpdater(cid, _, _) => CurrencyDid(cid)
  }

  datatype Block = Block(
    env: Env,
    bal: Balances,                  // updated balances
    acc: map<Address, Account>,     // updated accounts
    des: Designs,                   // updated designs
    fee: Tally,
    duplicated: set<Did>,
    newAddresses: set<Address>,
    ready: set<Op>,                 // accepted, not yet processed
    done: set<Op>)                  // processed

  function Fresh(env: Env): Block {
    Block(env, map[], map[], map[], map[], {}, {}, {}, {})
  }

  datatype Event = PreProcess(op: Op) | Process(op: Op)

  predicate Accepts(b: Block, op: Op) {
    && Checks(b.env, op)
    && DidOf(op) !in b.duplicated
    && op.Targets() !! b.newAddresses
  }

  /**
    PreProcess, then checkDuplication.  The sender or currency is recorded even when a new address
    turns out to be taken and the operation is refused.
  */
  function StepPreProcess(b: Block, op: Op): Block {
    if !Checks(b.env, op) || DidOf(op) in b.duplicated then b
    else
      var c := b.(duplicated := b.duplicated + {DidOf(op)});
      if op.Targets() !! b.newAddresses then
        c.(newAddresses := b.newAddresses + op.Targets(), ready := b.ready + {op})
      else c
  }

  function Effect(b: Block, op: Op): Block {
    var sts := BalanceWrites(b.env, op);
    b.(bal := PostAll(b.bal, sts),
       acc := b.acc + AccountWrites(b.env, op),
       des := b.des + DesignWrites(b.env, op),
       fee := TallyAll(b.fee, sts),
       ready := b.ready - {op},
       done := b.done + {op})
  }

  /** Only operations accepted by PreProcess are processed. */
  function StepProcess(b: Block, op: Op): Block {
    if op in b.ready then Effect(b, op) else b
  }

  function Step(b: Block, e: Event): Block {
    match e
    case PreProcess(op) => StepPreProcess(b, op)
    case Process(op) => StepProcess(b, op)
  }

  function Run(b: Block, es: seq<Event>): Block {
    if es == [] then b else Step(Run(b, es[..|es| - 1]), es[|es| - 1])
  }

  // ---------------------------------------------------------------- closing a block

  function FeeReceiver(b: Block, c: CurrencyID): Option<Address> {
    ReceiverOf(b.env.cp, c)
  }

  /** Close succeeds: every currency with fees has a payee, and its account exists. */
  predicate Payable(b: Block) {
    forall c :: c in b.fee ==> FeeReceiver(b, c).Some? && Exists(b.env, FeeReceiver(b, c).value)
  }

  function Payee(b: Block, c: CurrencyID): BalanceKey {
    BK(FeeReceiver(b, c).GetOr(""), c)
  }

  /** The balances after Close has paid the tally out. */
  function Paid(b: Block): Balances {
    map k | k in b.bal.Keys + (set c | c in b.fee :: Payee(b, c)) ::
      var cur := BalanceOf(b.bal, b.env.base.balances, k);
      if k.cid in b.fee && k == Payee(b, k.cid) then cur.(value := cur.value + b.fee[k.cid]) else cur
  }

  function Values(bal: Balances): map<BalanceKey, int> {
    map k | k in bal :: bal[k].value
  }

  /** The balances a reader would see if the block were saved now. */
  function BalancesNow(b: Block): map<BalanceKey, int> {
    b.env.base.balances + Values(b.bal)
  }

  /** The ledger once the block is saved. */
  function Commit(b: Block): Ledger {
    Ledger(b.env.base.accounts + b.acc, b.env.base.balances + Values(Paid(b)), b.env.base.designs + b.des)
  }
}
