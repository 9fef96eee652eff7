/** Reading the balances of an account from the index: the latest document of each currency. */
module Balances {
  import opened Prelude
  import opened Feeers
  import opened StateKeys
  import opened Facts
  import opened DigestDocs
  import opened DigestStore

  predicate BalanceFor(d: Doc, address: string) {
    d.BalanceEntry? && d.address == address
  }

  predicate Matches(d: Doc, address: string, cids: set<CurrencyID>) {
    BalanceFor(d, address) && d.currency !in cids
  }

  /** FindOne, sorted by descending height. */
  method FindLatest(docs: multiset<Doc>, address: string, cids: set<CurrencyID>) returns (r: Option<Doc>)
    ensures r.None? <==> forall d :: d in docs ==> !Matches(d, address, cids)
    ensures r.Some? ==>
              && r.value in docs && Matches(r.value, address, cids)
              && forall d :: d in docs && Matches(d, address, cids) ==> d.h <= r.value.h
  {
    r := None;
    var todo := docs;
    while todo != multiset{}
      invariant forall d :: d in todo ==> d in docs
      invariant r.None? ==> forall d :: d in docs && d !in todo ==> !Matches(d, address, cids)
      invariant r.Some? ==>
                  && r.value in docs && Matches(r.value, address, cids)
                  && forall d :: d in docs && d !in todo && Matches(d, address, cids) ==> d.h <= r.value.h
      decreases |todo|
    {
      var d :| d in todo;
      todo := todo - multiset{d};
      if Matches(d, address, cids) && (r.None? || r.value.h < d.h) { r := Some(d); }
    }
  }

  /** The newest balance document of an address in one currency. */
  ghost predicate Newest(docs: multiset<Doc>, address: string, c: CurrencyID, d: Doc) {
    && d in docs && BalanceFor(d, address) && d.currency == c
    && forall e :: e in docs && BalanceFor(e, address) && e.currency == c ==> e.h <= d.h
  }

  ghost predicate Held(docs: multiset<Doc>, address: string, c: CurrencyID) {
    exists d :: d in docs && BalanceFor(d, address) && d.currency == c
  }

  ghost predicate NewestAmount(docs: multiset<Doc>, address: string, c: CurrencyID, big: int) {
    exists d :: Newest(docs, address, c, d) && d.big == big
  }

  /** The greatest height among the documents of the address, and the height before it. */
  ghost predicate LastChange(docs: multiset<Doc>, address: string, last: int, previous: int) {
    && (forall d :: d in docs && BalanceFor(d, address) ==> d.h <= last)
    && if last == NIL_HEIGHT then previous == NIL_HEIGHT
       else exists d :: d in docs && BalanceFor(d, address) && d.h == last && d.previous == previous
  }

  ghost function Unseen(docs: multiset<Doc>, address: string, cids: set<CurrencyID>): set<CurrencyID> {
    set d | d in docs && Matches(d, address, cids) :: d.currency
  }

  lemma FewerUnseen(docs: multiset<Doc>, address: string, cids: set<CurrencyID>, d: Doc)
    requires d in docs && Matches(d, address, cids)
    ensures |Unseen(docs, address, cids + {d.currency})| < |Unseen(docs, address, cids)|
  {
    var before, after := Unseen(docs, address, cids), Unseen(docs, address, cids + {d.currency});
    assert d.currency in before && after == before - {d.currency};
    assert before == after + {d.currency};
  }

  lemma FoundNewest(docs: multiset<Doc>, address: string, cids: set<CurrencyID>, d: Doc)
    requires d in docs && Matches(d, address, cids)
    requires forall e :: e in docs && Matches(e, address, cids) ==> e.h <= d.h
    ensures NewestAmount(docs, address, d.currency, d.big) && Held(docs, address, d.currency)
  {
    assert Newest(docs, address, d.currency, d);
  }

  /** One amount for each currency the address was ever seen with, its latest. */
  ghost predicate Reported(docs: multiset<Doc>, address: string, amm: map<CurrencyID, int>) {
    forall c :: if c in amm then NewestAmount(docs, address, c, amm[c]) else !Held(docs, address, c)
  }

  /** The loop of Database.balance: latest document of a currency not seen yet, until there is none. */
  method CollectBalances(docs: multiset<Doc>, address: string)
    returns (amm: map<CurrencyID, int>, lastHeight: int, previousHeight: int)
    requires forall d :: d in docs ==> d.Height() > NIL_HEIGHT
    ensures Reported(docs, address, amm) && LastChange(docs, address, lastHeight, previousHeight)
  {
    hide NewestAmount, Held;
    amm, lastHeight, previousHeight := map[], NIL_HEIGHT, NIL_HEIGHT;
    while true
      invariant forall c :: c in amm ==> NewestAmount(docs, address, c, amm[c])
      invariant forall d :: d in docs && BalanceFor(d, address) && d.currency in amm ==> d.h <= lastHeight
      invariant if lastHeight == NIL_HEIGHT then amm == map[] && previousHeight == NIL_HEIGHT
                else exists d :: d in docs && BalanceFor(d, address) && d.h == lastHeight && d.previous == previousHeight
      decreases |Unseen(docs, address, amm.Keys)|
    {
      var sta := FindLatest(docs, address, amm.Keys);
      if sta.None? { break; }
      var d := sta.value;
      FoundNewest(docs, address, amm.Keys, d);
      FewerUnseen(docs, address, amm.Keys, d);
      assert amm[d.currency := d.big].Keys == amm.Keys + {d.currency};
      amm := amm[d.currency := d.big];
      if d.h > lastHeight {
        lastHeight := d.h;
        previousHeight := d.previous;
      }
    }
    NothingMore(docs, address, amm.Keys);
  }

  lemma NothingMore(docs: multiset<Doc>, address: string, cids: set<CurrencyID>)
    requires forall d :: d in docs ==> !Matches(d, address, cids)
    ensures forall c :: c !in cids ==> !Held(docs, address, c)
  {}

  /** Database.balance: the amounts as a list, in whatever order the map gives them. */
  method Balance(docs: multiset<Doc>, a: Address) returns (ams: seq<Amount>, lastHeight: int, previousHeight: int)
    requires forall d :: d in docs ==> d.Height() > NIL_HEIGHT
    ensures DistinctCurrencies(ams)
    ensures forall am :: am in ams ==> NewestAmount(docs, AddressPrefix(a), am.cid, am.big)
    ensures forall c :: Held(docs, AddressPrefix(a), c) ==> exists am :: am in ams && am.cid == c
    ensures LastChange(docs, AddressPrefix(a), lastHeight, previousHeight)
  {
    hide NewestAmount, Held, LastChange, AddressPrefix;
    var amm: map<CurrencyID, int>;
    amm, lastHeight, previousHeight := CollectBalances(docs, AddressPrefix(a));
    ams := [];
    var todo := amm.Keys;
    while todo != {}
      invariant todo <= amm.Keys && DistinctCurrencies(ams)
      invariant forall am :: am in ams ==> am.cid in amm.Keys - todo && amm[am.cid] == am.big
      invariant forall c :: c in amm.Keys - todo ==> Amount(c, amm[c]) in ams
    {
      var k :| k in todo;
      ams := ams + [Amount(k, amm[k])];
      todo := todo - {k};
    }
    forall c | Held(docs, AddressPrefix(a), c) ensures exists am :: am in ams && am.cid == c {
      assert Amount(c, amm[c]).cid == c;
    }
  }

  // ---------------------------------------------------------------- the whole account

  predicate AccountFor(d: Doc, address: string) {
    d.AccountEntry? && d.address == address
  }

  /** The newest account document of an address. */
  ghost predicate NewestAccount(docs: multiset<Doc>, address: string, d: Doc) {
    && d in docs && AccountFor(d, address)
    && forall e :: e in docs && AccountFor(e, address) ==> e.h <= d.h
  }

  ghost predicate AccountShown(docs: multiset<Doc>, address: string, account: Account) {
    exists d :: NewestAccount(docs, address, d) && d.account == account
  }

  /** FindOne on the accounts, sorted by descending height. */
  method FindAccount(docs: multiset<Doc>, address: string) returns (r: Option<Account>)
    ensures r.None? <==> forall d :: d in docs ==> !AccountFor(d, address)
    ensures r.Some? ==> AccountShown(docs, address, r.value)
  {
    var found: Option<Doc> := None;
    var todo := docs;
    while todo != multiset{}
      invariant forall d :: d in todo ==> d in docs
      invariant found.None? ==> forall d :: d in docs && d !in todo ==> !AccountFor(d, address)
      invariant found.Some? ==>
                  && found.value in docs && AccountFor(found.value, address)
                  && forall d :: d in docs && d !in todo && AccountFor(d, address) ==> d.h <= found.value.h
      decreases |todo|
    {
      var d :| d in todo;
      todo := todo - multiset{d};
      if AccountFor(d, address) && (found.None? || found.value.h < d.h) { found := Some(d); }
    }
    if found.None? { return None; }
    assert NewestAccount(docs, address, found.value);
    return Some(found.value.account);
  }

  /** What the API answers for an account. */
  datatype AccountAnswer = AccountAnswer(account: Account, balance: seq<Amount>, height: int, previousHeight: int)

  /** An answer for address a: the newest record, the newest amount of each currency, and the last change. */
  ghost predicate Answers(docs: multiset<Doc>, address: string, r: Option<AccountAnswer>) {
    && (r.None? <==> forall d :: d in docs ==> !AccountFor(d, address))
    && (r.Some? ==>
          && AccountShown(docs, address, r.value.account) && DistinctCurrencies(r.value.balance)
          && (forall am :: am in r.value.balance ==> NewestAmount(docs, address, am.cid, am.big))
          && (forall c :: Held(docs, address, c) ==> exists am :: am in r.value.balance && am.cid == c)
          && LastChange(docs, address, r.value.height, r.value.previousHeight))
  }

  /** Database.Account: the record, then the balances. */
  method ReadAccount(docs: multiset<Doc>, a: Address) returns (r: Option<AccountAnswer>)
    requires forall d :: d in docs ==> d.Height() > NIL_HEIGHT
    ensures Answers(docs, AddressPrefix(a), r)
  {
    hide NewestAmount, Held, LastChange, AddressPrefix, AccountShown, DistinctCurrencies;
    var account := FindAccount(docs, AddressPrefix(a));
    if account.None? { return None; }
    var ams, lastHeight, previousHeight := Balance(docs, a);
    return Some(AccountAnswer(account.value, ams, lastHeight, previousHeight));
  }
}
