/**
  The operation processor of one block.  Each method is one atomic step; Abs() ties the object to
  the state machine of Ledgers, where every property of blocks is proved.
*/
module OperationProcessors {
  import opened Prelude
  import opened Feeers
  import opened StateKeys
  import opened AccountKeys
  import opened Facts
  import opened AmountStates
  import opened Ledgers
  import opened Pools
  import opened ItemFees
  import opened Processors

  // ---------------------------------------------------------------- what is recorded per block

  datatype DuplicationType = SenderType | CurrencyType

  /** An address as a string, with the hint of its type. */
  const ADDRESS_HINT: string := "-a000:0.0.1"

  function DidString(d: Did): string {
    match d
    case SenderDid(a) => a + ADDRESS_HINT
    case CurrencyDid(c) => c
  }

  function DidType(d: Did): DuplicationType {
    if d.SenderDid? then SenderType else CurrencyType
  }

  predicate ProperDid(d: Did) {
    d.CurrencyDid? ==> ValidCurrencyID(d.c)
  }

  /** The string of a sender contains a colon, that of a valid currency does not. */
  lemma DidColon(d: Did)
    requires ProperDid(d)
    ensures ':' in DidString(d) <==> d.SenderDid?
  {}

  /** Senders and currencies share one map of strings without ever being taken for each other. */
  lemma DidStringInjective(d: Did, e: Did)
    requires ProperDid(d) && ProperDid(e)
    ensures DidString(d) == DidString(e) <==> d == e
  {
    DidColon(d);
    DidColon(e);
    if d.SenderDid? && e.SenderDid? && d.a + ADDRESS_HINT == e.a + ADDRESS_HINT {
      SuffixSplit(d.a, e.a, ADDRESS_HINT);
    }
  }

  ghost function DidStrings(ds: set<Did>): set<string> {
    set d | d in ds :: DidString(d)
  }

  lemma DidRecorded(ds: set<Did>, d: Did)
    requires ProperDid(d) && forall e :: e in ds ==> ProperDid(e)
    ensures DidString(d) in DidStrings(ds) <==> d in ds
  {
    forall e | e in ds ensures DidString(d) == DidString(e) <==> d == e {
      DidStringInjective(d, e);
    }
  }

  lemma DidInserted(ds: set<Did>, d: Did)
    ensures DidStrings(ds + {d}) == DidStrings(ds) + {DidString(d)}
    ensures forall e :: e in ds ==> DidString(e) in DidStrings(ds)
  {}

  lemma ValidDid(op: Op)
    requires op.IsValid()
    ensures ProperDid(DidOf(op))
  {}

  /** CreateAccountsFact.Targets */
  method Targets(accounts: seq<NewAccount>) returns (addrs: seq<Address>)
    ensures (set a | a in addrs) == (set i | 0 <= i < |accounts| :: accounts[i].keys.h)
  {
    addrs := [];
    for i := 0 to |accounts|
      invariant |addrs| == i && forall j :: 0 <= j < i ==> addrs[j] == accounts[j].keys.h
    {
      addrs := addrs + [accounts[i].keys.h];
    }
  }

  // ---------------------------------------------------------------- prepared processors

  datatype Processor =
    | ForTransfers(t: TransfersProcessor)
    | ForCreateAccounts(c: CreateAccountsProcessor)
    | ForKeyUpdater(k: KeyUpdaterProcessor)
    | ForCurrencyRegister(r: CurrencyRegisterProcessor)
    | ForCurrencyPolicyUpdater(p: CurrencyPolicyUpdaterProcessor)
  {
    function GetOp(): Op {
      match this
      case ForTransfers(t) => t.op
      case ForCreateAccounts(c) => c.op
      case ForKeyUpdater(k) => k.op
      case ForCurrencyRegister(r) => r.op
      case ForCurrencyPolicyUpdater(p) => p.op
    }

    ghost function Object(): object {
      match this
      case ForTransfers(t) => t
      case ForCreateAccounts(c) => c
      case ForKeyUpdater(k) => k
      case ForCurrencyRegister(r) => r
      case ForCurrencyPolicyUpdater(p) => p
    }

    ghost predicate Prepared(env: Env)
      reads Object()
    {
      match this
      case ForTransfers(t) => t.Prepared(env)
      case ForCreateAccounts(c) => c.Prepared(env)
      case ForKeyUpdater(k) => k.Prepared(env)
      case ForCurrencyRegister(r) => r.Prepared(env)
      case ForCurrencyPolicyUpdater(p) => p.Prepared(env)
    }
  }

  datatype Reason = CheckFailed | SenderDuplicated | CurrencyDuplicated | AddressTaken

  datatype Result = Prepared(p: Processor) | Refused(reason: Reason)

  datatype CloseResult = Closed | Failed | NilState

  // ---------------------------------------------------------------- paying the fees out

  /** The list holds each entry of the tally once. */
  ghost predicate Lists(ams: seq<Amount>, fee: Tally) {
    && DistinctCurrencies(ams)
    && (forall am :: am in ams ==> am.cid in fee && fee[am.cid] == am.big)
    && (forall c :: c in fee ==> Amount(c, fee[c]) in ams)
  }

  /** NewFeeOperationFact: the tally as a list, in whatever order the map gives it. */
  method FeeAmounts(fee: Tally) returns (ams: seq<Amount>)
    ensures Lists(ams, fee)
  {
    ams := [];
    var todo := fee.Keys;
    while todo != {}
      invariant todo <= fee.Keys && DistinctCurrencies(ams)
      invariant forall am :: am in ams ==> am.cid in fee.Keys - todo && fee[am.cid] == am.big
      invariant forall c :: c in fee.Keys - todo ==> Amount(c, fee[c]) in ams
    {
      var cid :| cid in todo;
      ams := ams + [Amount(cid, fee[cid])];
      todo := todo - {cid};
    }
  }

  /** What the fee operation pays: each amount to the receiver its policy names. */
  function Payout(cp: Designs, ams: seq<Amount>): seq<Pay> {
    if ams == [] then []
    else
      var am := ams[|ams| - 1];
      Payout(cp, ams[..|ams| - 1]) + [Pay(ReceiverOf(cp, am.cid).GetOr(""), am)]
  }

  predicate Unpayable(env: Env, c: CurrencyID) {
    c !in env.cp || (ReceiverOf(env.cp, c).Some? && !Exists(env, ReceiverOf(env.cp, c).value))
  }

  /** FeeOperationProcessor.Process; the state of a policy without receiver stays nil. */
  method PayFees(cp: CurrencyPool, pool: Statepool, ghost env: Env, ams: seq<Amount>)
    returns (r: CloseResult, sts: seq<State>)
    requires env.base == pool.base && env.cp == cp.demap
    ensures r == Failed <==> exists am :: am in ams && Unpayable(env, am.cid)
    ensures r == Closed <==> forall am :: am in ams ==> !Unpayable(env, am.cid) && ReceiverOf(env.cp, am.cid).Some?
    ensures r == Closed ==>
              AmountsIn(sts) == Credits(env.base, Payout(env.cp, ams)) && AccountsIn(sts) == map[] && DesignsIn(sts) == map[]
  {
    hide Credits, Payout, AmountsIn, AccountsIn, DesignsIn;
    r, sts := Closed, [];
    PayoutNothing(env);
    for i := 0 to |ams|
      invariant forall am :: am in ams[..i] ==> !Unpayable(env, am.cid)
      invariant r != Failed
      invariant r == Closed <==> forall am :: am in ams[..i] ==> ReceiverOf(env.cp, am.cid).Some?
      invariant r == Closed ==>
                  AmountsIn(sts) == Credits(env.base, Payout(env.cp, ams[..i])) && AccountsIn(sts) == map[] && DesignsIn(sts) == map[]
    {
      var am := ams[i];
      assert ams[..i + 1] == ams[..i] + [am] && am in ams;
      var feeer := cp.GetFeeer(am.cid);
      if feeer.None? { return Failed, sts; }
      var receiver := feeer.value.Receiver();
      if receiver.None? {
        r := NilState;
      } else {
        if pool.GetAccount(receiver.value).None? { return Failed, sts; }
        var k := BK(receiver.value, am.cid);
        var st := BalanceWrite(NewAmountState(k, pool.GetBalance(receiver.value, am.cid)).Add(am.big));
        PayoutAppend(env.cp, ams[..i], am);
        CreditsAppend(env.base, Payout(env.cp, ams[..i]), Pay(receiver.value, am));
        StatesAppend(sts, st);
        sts := sts + [st];
      }
    }
    assert ams[..|ams|] == ams;
  }

  lemma PayoutNothing(env: Env)
    ensures AmountsIn([]) == Credits(env.base, Payout(env.cp, [])) && AccountsIn([]) == map[] && DesignsIn([]) == map[]
  {}

  lemma PayoutAppend(cp: Designs, ams: seq<Amount>, am: Amount)
    ensures Payout(cp, ams + [am]) == Payout(cp, ams) + [Pay(ReceiverOf(cp, am.cid).GetOr(""), am)]
  {
    assert (ams + [am])[..|ams|] == ams;
  }

  /** Each payee is credited the amount of its currency, once. */
  lemma {:induction false} PayoutCredits(cp: Designs, ams: seq<Amount>, k: BalanceKey)
    requires DistinctCurrencies(ams)
    ensures (forall am :: am in ams ==> am.cid != k.cid) ==> Credited(Payout(cp, ams), k) == 0
    ensures forall am :: am in ams && am.cid == k.cid ==>
              Credited(Payout(cp, ams), k) == if k.addr == ReceiverOf(cp, k.cid).GetOr("") then am.big else 0
  {
    hide ReceiverOf;
    if ams != [] {
      var front, last := ams[..|ams| - 1], ams[|ams| - 1];
      assert ams == front + [last];
      PayoutCredits(cp, front, k);
      assert forall am :: am in front ==> am.cid != last.cid;
    }
  }

  lemma {:induction false} PayoutTouches(cp: Designs, ams: seq<Amount>, pay: Pay)
    ensures pay in Payout(cp, ams) <==> pay.am in ams && pay.to == ReceiverOf(cp, pay.am.cid).GetOr("")
  {
    hide ReceiverOf;
    if ams != [] {
      assert ams == ams[..|ams| - 1] + [ams[|ams| - 1]];
      PayoutTouches(cp, ams[..|ams| - 1], pay);
    }
  }

  /** Merging the payout into the written balances is what Paid describes. */
  lemma PayoutPaid(b: Block, ams: seq<Amount>)
    requires Lists(ams, b.fee)
    ensures PostAll(b.bal, Credits(b.env.base, Payout(b.env.cp, ams))) == Paid(b)
  {
    hide Credits, Payout, PostAll, ReceiverOf, BalanceOf;
    var sts := Credits(b.env.base, Payout(b.env.cp, ams));
    forall k
      ensures k in PostAll(b.bal, sts) <==> k in Paid(b)
      ensures k in PostAll(b.bal, sts) ==> PostAll(b.bal, sts)[k] == Paid(b)[k]
    {
      PayoutPaidAt(b, ams, k);
    }
  }

  lemma PayoutTouched(b: Block, ams: seq<Amount>, k: BalanceKey)
    requires Lists(ams, b.fee)
    ensures Touched(Credits(b.env.base, Payout(b.env.cp, ams)), k) <==> k.cid in b.fee && k == Payee(b, k.cid)
  {
    hide Credits, Payout, ReceiverOf;
    var pays := Payout(b.env.cp, ams);
    var sts := Credits(b.env.base, pays);
    if k.cid in b.fee && k == Payee(b, k.cid) {
      var pay := Pay(k.addr, Amount(k.cid, b.fee[k.cid]));
      PayoutTouches(b.env.cp, ams, pay);
      CreditsMembers(b.env.base, pays, Credit(b.env.base, pay));
    }
    if Touched(sts, k) {
      var st :| st in sts && st.key == k;
      CreditsMembers(b.env.base, pays, st);
      var pay :| pay in pays && st == Credit(b.env.base, pay);
      PayoutTouches(b.env.cp, ams, pay);
    }
  }

  lemma CreditsSourced(base: Ledger, pays: seq<Pay>)
    ensures Sourced(Credits(base, pays), base.balances)
  {}

  lemma PayoutPaidAt(b: Block, ams: seq<Amount>, k: BalanceKey)
    requires Lists(ams, b.fee)
    ensures var after := PostAll(b.bal, Credits(b.env.base, Payout(b.env.cp, ams)));
            && (k in after <==> k in Paid(b))
            && (k in after ==> after[k] == Paid(b)[k])
  {
    hide Credits, Payout, PostAll, Touched, Sourced, Credited, DistinctCurrencies;
    var pays := Payout(b.env.cp, ams);
    var sts := Credits(b.env.base, pays);
    CreditsSourced(b.env.base, pays);
    PostAllMeaning(b.bal, b.env.base.balances, sts, k);
    CreditsMeaning(b.env.base, pays, k);
    PayoutCredits(b.env.cp, ams, k);
    PayoutTouched(b, ams, k);
    PayeeKey(b, k);
  }

  lemma PayeeKey(b: Block, k: BalanceKey)
    ensures k == Payee(b, k.cid) <==> k.addr == ReceiverOf(b.env.cp, k.cid).GetOr("")
    ensures k in (set c | c in b.fee :: Payee(b, c)) <==> k.cid in b.fee && k == Payee(b, k.cid)
  {}

  lemma NothingToPay(b: Block)
    requires |b.fee| == 0
    ensures Paid(b) == b.bal && Payable(b)
  {
    assert b.fee.Keys == {};
  }

  lemma PayableAmounts(b: Block, ams: seq<Amount>)
    requires Lists(ams, b.fee)
    ensures Payable(b) <==> forall am :: am in ams ==> !Unpayable(b.env, am.cid) && ReceiverOf(b.env.cp, am.cid).Some?
    ensures (exists c :: c in b.fee && Unpayable(b.env, c)) <==> exists am :: am in ams && Unpayable(b.env, am.cid)
  {}

  // ---------------------------------------------------------------- the operation processor

  class OperationProcessor {
    const cp: CurrencyPool
    const pool: Statepool
    const pubs: seq<Publickey>
    const threshold: nat
    var fee: Tally
    var duplicated: map<string, DuplicationType>
    var duplicatedNewAddress: set<Address>
    ghost var dids: set<Did>
    ghost var ready: set<Op>
    ghost var done: set<Op>

    ghost predicate Valid()
      reads this
    {
      && duplicated.Keys == DidStrings(dids)
      && forall d :: d in dids ==> ProperDid(d) && duplicated[DidString(d)] == DidType(d)
    }

    ghost function Snapshot(): Env
      reads cp
    {
      Env(pool.base, cp.demap, pubs, threshold)
    }

    ghost function Abs(): Block
      reads this, cp, pool
    {
      Block(Snapshot(), View(pool.balances), pool.accounts, pool.designs, fee, dids, duplicatedNewAddress, ready, done)
    }

    /** New: a processor for the next block, on a state pool nothing was written to. */
    constructor New(cp: CurrencyPool, pool: Statepool, pubs: seq<Publickey>, threshold: nat)
      requires pool.balances == map[] && pool.accounts == map[] && pool.designs == map[]
      ensures Valid() && Abs() == Fresh(Env(pool.base, cp.demap, pubs, threshold))
      ensures this.cp == cp && this.pool == pool && this.pubs == pubs && this.threshold == threshold
    {
      this.cp, this.pool, this.pubs, this.threshold := cp, pool, pubs, threshold;
      fee, duplicated, duplicatedNewAddress := map[], map[], {};
      dids, ready, done := {}, {}, {};
    }

    method SetState(sts: seq<State>)
      modifies `fee, pool
      ensures fee == TallyAll(old(fee), AmountsIn(sts))
      ensures View(pool.balances) == PostAll(View(old(pool.balances)), AmountsIn(sts))
      ensures pool.accounts == old(pool.accounts) + AccountsIn(sts)
      ensures pool.designs == old(pool.designs) + DesignsIn(sts)
    {
      ghost var tally := fee;
      for i := 0 to |sts|
        invariant fee == TallyAll(tally, AmountsIn(sts[..i]))
        invariant unchanged(pool)
      {
        StatesAppend(sts[..i], sts[i]);
        assert sts[..i + 1] == sts[..i] + [sts[i]];
        if sts[i].BalanceWrite? {
          var t := sts[i].am;
          TallyAppend(tally, AmountsIn(sts[..i]), t);
          if t.fee > 0 {
            var f := if t.key.cid in fee then fee[t.key.cid] else 0;
            fee := fee[t.key.cid := f + t.fee];
          }
        }
      }
      assert sts[..|sts|] == sts;
      pool.Set(sts);
    }

    /** All addresses are tested before the first is recorded. */
    method CheckNewAddressDuplication(addrs: seq<Address>) returns (ok: bool)
      modifies `duplicatedNewAddress
      ensures ok <==> (set a | a in addrs) !! old(duplicatedNewAddress)
      ensures duplicatedNewAddress ==
              if ok then old(duplicatedNewAddress) + (set a | a in addrs) else old(duplicatedNewAddress)
    {
      for i := 0 to |addrs|
        invariant forall j :: 0 <= j < i ==> addrs[j] !in duplicatedNewAddress
        invariant duplicatedNewAddress == old(duplicatedNewAddress)
      {
        if addrs[i] in duplicatedNewAddress {
          assert addrs[i] in (set a | a in addrs);
          return false;
        }
      }
      for i := 0 to |addrs|
        invariant duplicatedNewAddress == old(duplicatedNewAddress) + (set a | a in addrs[..i])
      {
        assert addrs[..i + 1] == addrs[..i] + [addrs[i]];
        duplicatedNewAddress := duplicatedNewAddress + {addrs[i]};
      }
      assert addrs[..|addrs|] == addrs;
      return true;
    }

    /** Records a sender or currency unless it is recorded already. */
    method RecordDid(d: Did) returns (ok: bool)
      requires Valid() && ProperDid(d)
      modifies `duplicated, `dids
      ensures Valid() && ok == (d !in old(dids)) && dids == old(dids) + {d}
    {
      hide ProperDid, DidString, DidStrings;
      DidRecorded(dids, d);
      DidInserted(dids, d);
      if DidString(d) in duplicated {
        assert dids == dids + {d};
        return false;
      }
      duplicated := duplicated[DidString(d) := DidType(d)];
      dids := dids + {d};
      return true;
    }

    /** The sender or currency is recorded before the new addresses are looked at. */
    method CheckDuplication(op: Op) returns (r: Option<Reason>)
      requires Valid() && op.IsValid()
      modifies `duplicated, `duplicatedNewAddress, `dids
      ensures Valid()
      ensures r.Some? <==> DidOf(op) in old(dids) || !(op.Targets() !! old(duplicatedNewAddress))
      ensures r == Some(SenderDuplicated) <==> DidOf(op) in old(dids) && DidOf(op).SenderDid?
      ensures r != Some(CheckFailed)
      ensures r == Some(CurrencyDuplicated) <==> DidOf(op) in old(dids) && DidOf(op).CurrencyDid?
      ensures dids == old(dids) + {DidOf(op)}
      ensures duplicatedNewAddress ==
              if r.None? then old(duplicatedNewAddress) + op.Targets() else old(duplicatedNewAddress)
    {
      ValidDid(op);
      hide Op.IsValid, DidString, DidStrings, ProperDid, DidOf;
      var d := DidOf(op);
      var recorded := RecordDid(d);
      if !recorded { return Some(if DidType(d) == SenderType then SenderDuplicated else CurrencyDuplicated); }
      if op.CreateAccounts? {
        var addrs := Targets(op.accounts);
        var free := CheckNewAddressDuplication(addrs);
        if !free { return Some(AddressTaken); }
      }
      return None;
    }

    /** One step of the first phase: the check of the operation, then the duplication check. */
    method PreProcess(op: Op) returns (r: Result)
      requires Valid() && op.IsValid()
      modifies this
      ensures Valid() && Abs() == StepPreProcess(old(Abs()), op)
      ensures r.Prepared? <==> Accepts(old(Abs()), op)
      ensures r.Prepared? ==> r.p.GetOp() == op && r.p.Prepared(Snapshot()) && fresh(r.p.Object())
      ensures r == Refused(CheckFailed) <==> !Checks(Snapshot(), op)
      ensures r == Refused(AddressTaken) ==> Abs() == old(Abs()).(duplicated := old(dids) + {DidOf(op)})
    {
      hide Checks, Op.IsValid, DidOf, Op.Targets, DidStrings, ProperDid;
      hide TransfersProcessor.Prepared, CreateAccountsProcessor.Prepared, KeyUpdaterProcessor.Prepared;
      hide CurrencyRegisterProcessor.Prepared, CurrencyPolicyUpdaterProcessor.Prepared;
      var p := Check(op);
      if p.None? { return Refused(CheckFailed); }
      var dup := CheckDuplication(op);
      if dup.Some? { return Refused(dup.value); }
      ready := ready + {op};
      return Prepared(p.value);
    }

    /** getNewProcessor and the PreProcess of the processor it creates. */
    method Check(op: Op) returns (r: Option<Processor>)
      requires op.IsValid()
      ensures r.Some? <==> Checks(Snapshot(), op)
      ensures r.Some? ==> r.value.GetOp() == op && r.value.Prepared(Snapshot()) && fresh(r.value.Object())
    {
      hide Checks;
      ghost var env := Snapshot();
      match op
      case Transfers(_, _, _) =>
        var t := new TransfersProcessor(cp, op);
        var ok := t.PreProcess(pool, env);
        return if ok then Some(ForTransfers(t)) else None;
      case CreateAccounts(_, _, _) =>
        var c := new CreateAccountsProcessor(cp, op);
        var ok := c.PreProcess(pool, env);
        return if ok then Some(ForCreateAccounts(c)) else None;
      case KeyUpdater(_, _, _, _) =>
        var k := new KeyUpdaterProcessor(cp, op);
        var ok := k.PreProcess(pool, env);
        return if ok then Some(ForKeyUpdater(k)) else None;
      case CurrencyRegister(_, _) =>
        var g := new CurrencyRegisterProcessor(cp, pubs, threshold, op);
        var ok := g.PreProcess(pool, env);
        return if ok then Some(ForCurrencyRegister(g)) else None;
      case CurrencyPolicyUpdater(_, _, _) =>
        var u := new CurrencyPolicyUpdaterProcessor(cp, pubs, threshold, op);
        var ok := u.PreProcess(pool, env);
        return if ok then Some(ForCurrencyPolicyUpdater(u)) else None;
    }

    /** The Process of the processor itself. */
    method Produce(p: Processor) returns (sts: seq<State>)
      requires p.Prepared(Snapshot())
      modifies p.Object()
      ensures Writes(sts, Snapshot(), p.GetOp())
    {
      hide Writes;
      ghost var env := Snapshot();
      match p
      case ForTransfers(t) => sts := t.Process(env);
      case ForCreateAccounts(c) => sts := c.Process(env);
      case ForKeyUpdater(k) => sts := k.Process(env);
      case ForCurrencyRegister(g) => sts := g.Process(env);
      case ForCurrencyPolicyUpdater(u) => sts := u.Process(env);
    }

    /**
      One step of the second phase, for a processor PreProcess returned and not yet processed.
      Registrations and policy updates write to the pool directly, past the tally.
    */
    method Process(p: Processor)
      requires Valid() && p.Prepared(Snapshot()) && p.GetOp() in ready
      modifies this, pool, p.Object()
      ensures Valid() && Abs() == StepProcess(old(Abs()), p.GetOp())
    {
      PreparedKind(p, Snapshot());
      hide Writes, StepProcess, PostAll, TallyAll, AmountsIn, AccountsIn, DesignsIn, DidStrings, ProperDid, View;
      hide Processor.Prepared;
      ghost var b, op := Abs(), p.GetOp();
      var sts := Produce(p);
      Applied(b, sts, op);
      if p.ForCurrencyRegister? || p.ForCurrencyPolicyUpdater? {
        AppliedNoFee(b, sts, op);
        pool.Set(sts);
      } else {
        SetState(sts);
      }
      ready, done := ready - {op}, done + {op};
    }

    lemma PreparedKind(p: Processor, env: Env)
      requires p.Prepared(env)
      ensures p.ForCurrencyRegister? || p.ForCurrencyPolicyUpdater? ==>
                p.GetOp().CurrencyRegister? || p.GetOp().CurrencyPolicyUpdater?
    {}

    /** Process given an operation nobody pre-processed: both phases at once. */
    method ProcessOperation(op: Op) returns (r: Option<Reason>)
      requires Valid() && op.IsValid()
      modifies this, pool
      ensures Valid() && (r.None? <==> Accepts(old(Abs()), op))
      ensures Abs() == if r.None? then StepProcess(StepPreProcess(old(Abs()), op), op) else StepPreProcess(old(Abs()), op)
    {
      var pre := PreProcess(op);
      hide Checks, Op.IsValid, Processor.Prepared, Effect, DidStrings, View, Op.Targets, DidOf;
      match pre
      case Refused(reason) => return Some(reason);
      case Prepared(p) =>
        Process(p);
        return None;
    }

    /** Pays the tally out; nothing is written unless every fee can be paid. */
    method Close() returns (r: CloseResult)
      modifies pool
      ensures r == Closed <==> Payable(old(Abs()))
      ensures r == Failed <==> exists c :: c in fee && Unpayable(Snapshot(), c)
      ensures Abs() == if r == Closed then old(Abs()).(bal := Paid(old(Abs()))) else old(Abs())
    {
      hide Paid, Payable, Payout, Credits, PostAll, Lists, View;
      ghost var b := Abs();
      if |fee| == 0 {
        NothingToPay(b);
        return Closed;
      }
      var amounts := FeeAmounts(fee);
      var sts: seq<State>;
      r, sts := PayFees(cp, pool, b.env, amounts);
      PayableAmounts(b, amounts);
      if r == Closed {
        PayoutPaid(b, amounts);
        pool.Set(sts);
      }
    }
  }

  /** Registrations and policy updates carry no fee, so writing them past setState loses nothing. */
  lemma NoFee(fee: Tally, env: Env, op: Op)
    requires op.CurrencyRegister? || op.CurrencyPolicyUpdater?
    ensures TallyAll(fee, BalanceWrites(env, op)) == fee
  {}

  lemma Applied(b: Block, sts: seq<State>, op: Op)
    requires Writes(sts, b.env, op) && op in b.ready
    ensures StepProcess(b, op) ==
            b.(bal := PostAll(b.bal, AmountsIn(sts)), acc := b.acc + AccountsIn(sts), des := b.des + DesignsIn(sts),
               fee := TallyAll(b.fee, AmountsIn(sts)), ready := b.ready - {op}, done := b.done + {op})
  {
    hide BalanceWrites, AccountWrites, DesignWrites;
  }

  /** Without fees in its states the tally need not be looked at. */
  lemma AppliedNoFee(b: Block, sts: seq<State>, op: Op)
    requires Writes(sts, b.env, op) && (op.CurrencyRegister? || op.CurrencyPolicyUpdater?)
    ensures TallyAll(b.fee, AmountsIn(sts)) == b.fee
  {
    NoFee(b.fee, b.env, op);
  }

  lemma TallyAppend(fee: Tally, sts: seq<AmountState>, st: AmountState)
    ensures TallyAll(fee, sts + [st]) == TallyOne(TallyAll(fee, sts), st)
  {
    assert (sts + [st])[..|sts|] == sts;
  }
}
