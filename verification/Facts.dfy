/** The facts operations carry, and what IsValid demands of them before they are proposed. */
module Facts {
  import opened Prelude
  import opened Feeers
  import opened StateKeys
  import opened AccountKeys

  const MAX_ITEMS: nat := 10

  datatype Amount = Amount(cid: CurrencyID, big: int)

  datatype Policy = Policy(minBalance: int, feeer: Feeer) {
    predicate IsValid() {
      minBalance >= 0 && feeer.IsValid()
    }
  }

  datatype Design = Design(cid: CurrencyID, supply: int, genesisAccount: Option<Address>, policy: Policy) {
    predicate IsValid() {
      ValidCurrencyID(cid) && supply > 0 && policy.IsValid()
    }

    function SetPolicy(po: Policy): Design {
      this.(policy := po)
    }
  }

  datatype Account = Account(address: Address, keys: Keys)

  /** An item of a transfer: amounts for one receiver. */
  datatype Payment = Payment(to: Address, amounts: seq<Amount>)

  /** An item of an account creation: the address is the hash of the keys. */
  datatype NewAccount = NewAccount(keys: Keys, amounts: seq<Amount>) {
    function ToPayment(): Payment {
      Payment(keys.h, amounts)
    }
  }

  datatype Op =
    | Transfers(sender: Address, items: seq<Payment>, signers: seq<Publickey>)
    | CreateAccounts(sender: Address, accounts: seq<NewAccount>, signers: seq<Publickey>)
    | KeyUpdater(target: Address, keys: Keys, cid: CurrencyID, signers: seq<Publickey>)
    | CurrencyRegister(design: Design, signers: seq<Publickey>)
    | CurrencyPolicyUpdater(cid: CurrencyID, policy: Policy, signers: seq<Publickey>)
  {
    /** AmountsItem: what each item pays to whom. */
    function Payments(): (ps: seq<Payment>)
      ensures Transfers? ==> ps == items
      ensures CreateAccounts? ==> |ps| == |accounts|
      ensures CreateAccounts? ==> forall i :: 0 <= i < |ps| ==> ps[i] == Payment(accounts[i].keys.h, accounts[i].amounts)
    {
      match this
      case Transfers(_, items, _) => items
      case CreateAccounts(_, accounts, _) =>
        seq(|accounts|, i requires 0 <= i < |accounts| => accounts[i].ToPayment())
      case _ => []
    }

    /** The addresses a creation claims. */
    function Targets(): set<Address> {
      if CreateAccounts? then set i | 0 <= i < |accounts| :: accounts[i].keys.h else {}
    }

    /** The fact is valid, and no signer signed twice. */
    predicate IsValid() {
      DistinctSigners(signers) && ValidFact()
    }

    predicate ValidFact() {
      match this
      case Transfers(sender, items, _) => ValidPayments(sender, items)
      case CreateAccounts(sender, accounts, _) =>
        && ValidPayments(sender, Payments())
        && forall x :: x in accounts ==> Valid(x.keys)
      case KeyUpdater(_, keys, cid, _) => Valid(keys) && ValidCurrencyID(cid)
      case CurrencyRegister(design, _) => design.IsValid() && design.genesisAccount.Some?
      case CurrencyPolicyUpdater(cid, policy, _) => ValidCurrencyID(cid) && policy.IsValid()
    }
  }

  predicate DistinctCurrencies(ams: seq<Amount>) {
    forall i, j :: 0 <= i < j < |ams| ==> ams[i].cid != ams[j].cid
  }

  predicate ValidAmounts(ams: seq<Amount>) {
    && ams != []
    && DistinctCurrencies(ams)
    && forall am :: am in ams ==> ValidCurrencyID(am.cid) && am.big > 0
  }

  predicate DistinctReceivers(ps: seq<Payment>) {
    forall i, j :: 0 <= i < j < |ps| ==> ps[i].to != ps[j].to
  }

  predicate ValidPayments(sender: Address, ps: seq<Payment>) {
    && 1 <= |ps| <= MAX_ITEMS
    && (forall p :: p in ps ==> ValidAmounts(p.amounts) && p.to != sender)
    && DistinctReceivers(ps)
  }

  /** BaseTransfersItem.IsValid and BaseCreateAccountsItem.IsValid, the part about amounts. */
  method AmountsAreValid(ams: seq<Amount>) returns (ok: bool)
    ensures ok <==> ValidAmounts(ams)
  {
    if |ams| == 0 { return false; }
    var founds: set<CurrencyID> := {};
    for i := 0 to |ams|
      invariant founds == set j | 0 <= j < i :: ams[j].cid
      invariant DistinctCurrencies(ams[..i])
      invariant forall j :: 0 <= j < i ==> ValidCurrencyID(ams[j].cid) && ams[j].big > 0
    {
      if ams[i].cid in founds {
        assert exists j :: 0 <= j < i && ams[j].cid == ams[i].cid;
        return false;
      }
      founds := founds + {ams[i].cid};
      if !ValidCurrencyID(ams[i].cid) || ams[i].big <= 0 {
        assert ams[i] in ams;
        return false;
      }
    }
    assert ams[..|ams|] == ams;
    return true;
  }

  /** TransfersFact.IsValid and CreateAccountsFact.IsValid: the loop over the items. */
  method PaymentsAreValid(sender: Address, ps: seq<Payment>) returns (ok: bool)
    ensures ok <==> ValidPayments(sender, ps)
  {
    if |ps| < 1 || |ps| > MAX_ITEMS { return false; }
    var found: set<Address> := {};
    for i := 0 to |ps|
      invariant found == set j | 0 <= j < i :: ps[j].to
      invariant DistinctReceivers(ps[..i])
      invariant forall j :: 0 <= j < i ==> ValidAmounts(ps[j].amounts) && ps[j].to != sender
    {
      assert ps[i] in ps;
      var valid := AmountsAreValid(ps[i].amounts);
      if !valid { return false; }
      if ps[i].to in found {
        assert exists j :: 0 <= j < i && ps[j].to == ps[i].to;
        return false;
      }
      if ps[i].to == sender { return false; }
      found := found + {ps[i].to};
    }
    assert ps[..|ps|] == ps;
    return true;
  }

  /** The hash of a transfer fact is a fixed function of token, sender and items. */
  const TransfersHash: (Bytes, Address, seq<Payment>) -> string

  /** TransfersFact.IsValid: token, items and hash.  Addresses are always valid, their hint is never empty. */
  method TransfersFactIsValid(token: Bytes, h: string, sender: Address, ps: seq<Payment>) returns (ok: bool)
    ensures ok <==> token != [] && IsHash(h) && ValidPayments(sender, ps) && h == TransfersHash(token, sender, ps)
  {
    if |token| < 1 || !IsHash(h) { return false; }
    var valid := PaymentsAreValid(sender, ps);
    return valid && h == TransfersHash(token, sender, ps);
  }
}
