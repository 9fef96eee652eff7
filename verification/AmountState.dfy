/**
  Balances change only through deltas.  An AmountState carries the value read from the snapshot, a
  delta to add and a fee; the state pool merges the deltas written to one key.
*/
module AmountStates {
  import opened Prelude
  import opened Feeers
  import opened StateKeys

  datatype BalanceKey = BK(addr: Address, cid: CurrencyID)

  datatype AmountState = AmountState(key: BalanceKey, value: Option<int>, add: int, fee: int) {
    function Add(a: int): AmountState { this.(add := add + a) }

    function Sub(a: int): AmountState { this.(add := add - a) }

    function AddFee(f: int): AmountState { this.(fee := fee + f) }

    function Clear(): AmountState { this.(add := 0, fee := 0) }

    /** The delta is added to the value merged so far; fees accumulate. */
    function Merge(base: AmountState): AmountState {
      AddFee(base.fee).(value := Some(base.value.GetOr(0) + add))
    }
  }

  function NewAmountState(key: BalanceKey, value: Option<int>): AmountState {
    AmountState(key, value, 0, 0)
  }

  /** Statepool.Set for one balance: the first write of a key starts from its own cleared state. */
  function SetOne(updates: map<BalanceKey, AmountState>, st: AmountState): map<BalanceKey, AmountState> {
    var current := if st.key in updates then updates[st.key] else st.Clear();
    updates[st.key := st.Merge(current)]
  }

  // ---------------------------------------------------------------- what the merged states mean

  /** The part of a merged state that counts: its value and the fees debited so far. */
  datatype Bal = Bal(value: int, fee: int)

  type Balances = map<BalanceKey, Bal>

  function View(updates: map<BalanceKey, AmountState>): Balances {
    map k | k in updates :: Bal(updates[k].value.GetOr(0), updates[k].fee)
  }

  function Current(bal: Balances, st: AmountState): Bal {
    if st.key in bal then bal[st.key] else Bal(st.value.GetOr(0), 0)
  }

  function Post(bal: Balances, st: AmountState): Balances {
    var cur := Current(bal, st);
    bal[st.key := Bal(cur.value + st.add, cur.fee + st.fee)]
  }

  function PostAll(bal: Balances, sts: seq<AmountState>): Balances {
    if sts == [] then bal else Post(PostAll(bal, sts[..|sts| - 1]), sts[|sts| - 1])
  }

  lemma SetOneView(updates: map<BalanceKey, AmountState>, st: AmountState)
    ensures View(SetOne(updates, st)) == Post(View(updates), st)
  {}

  // ---------------------------------------------------------------- sums over a list of writes

  function AddAt(sts: seq<AmountState>, k: BalanceKey): int {
    if sts == [] then 0
    else AddAt(sts[..|sts| - 1], k) + if sts[|sts| - 1].key == k then sts[|sts| - 1].add else 0
  }

  function FeeAt(sts: seq<AmountState>, k: BalanceKey): int {
    if sts == [] then 0
    else FeeAt(sts[..|sts| - 1], k) + if sts[|sts| - 1].key == k then sts[|sts| - 1].fee else 0
  }

  /** The deltas of one currency. */
  function AddIn(sts: seq<AmountState>, c: CurrencyID): int {
    if sts == [] then 0
    else AddIn(sts[..|sts| - 1], c) + if sts[|sts| - 1].key.cid == c then sts[|sts| - 1].add else 0
  }

  function FeeIn(sts: seq<AmountState>, c: CurrencyID): int {
    if sts == [] then 0
    else FeeIn(sts[..|sts| - 1], c) + if sts[|sts| - 1].key.cid == c then sts[|sts| - 1].fee else 0
  }

  ghost predicate Touched(sts: seq<AmountState>, k: BalanceKey) {
    exists st :: st in sts && st.key == k
  }

  /** Every write carries the snapshot value of its key. */
  ghost predicate Sourced(sts: seq<AmountState>, snapshot: map<BalanceKey, int>) {
    forall st :: st in sts ==> st.value == Lookup(snapshot, st.key)
  }

  function Lookup(snapshot: map<BalanceKey, int>, k: BalanceKey): Option<int> {
    if k in snapshot then Some(snapshot[k]) else None
  }

  /** The balance of k on top of the snapshot. */
  function BalanceOf(bal: Balances, snapshot: map<BalanceKey, int>, k: BalanceKey): Bal {
    if k in bal then bal[k] else Bal(Lookup(snapshot, k).GetOr(0), 0)
  }

  /** Merging adds up: each key ends at its former balance plus its own deltas, in whatever order. */
  lemma {:induction false} PostAllMeaning(bal: Balances, snapshot: map<BalanceKey, int>, sts: seq<AmountState>, k: BalanceKey)
    requires Sourced(sts, snapshot)
    ensures k in PostAll(bal, sts) <==> k in bal || Touched(sts, k)
    ensures BalanceOf(PostAll(bal, sts), snapshot, k) ==
            Bal(BalanceOf(bal, snapshot, k).value + AddAt(sts, k), BalanceOf(bal, snapshot, k).fee + FeeAt(sts, k))
  {
    if sts != [] {
      var front, last := sts[..|sts| - 1], sts[|sts| - 1];
      assert sts == front + [last];
      assert last in sts;
      PostAllMeaning(bal, snapshot, front, k);
      if last.key == k {
        assert Touched(sts, k);
      } else if Touched(sts, k) {
        var st :| st in sts && st.key == k;
        assert st in front;
      }
    }
  }

  /** Two lists of writes that agree key by key leave the same balances. */
  ghost predicate SameEffect(xs: seq<AmountState>, ys: seq<AmountState>) {
    && (forall k :: Touched(xs, k) <==> Touched(ys, k))
    && (forall k :: AddAt(xs, k) == AddAt(ys, k))
    && (forall k :: FeeAt(xs, k) == FeeAt(ys, k))
  }

  lemma SameEffectSameBalances(bal: Balances, snapshot: map<BalanceKey, int>, xs: seq<AmountState>, ys: seq<AmountState>)
    requires Sourced(xs, snapshot) && Sourced(ys, snapshot) && SameEffect(xs, ys)
    ensures PostAll(bal, xs) == PostAll(bal, ys)
  {
    forall k ensures k in PostAll(bal, xs) <==> k in PostAll(bal, ys)
      ensures k in PostAll(bal, xs) ==> PostAll(bal, xs)[k] == PostAll(bal, ys)[k]
    {
      PostAllMeaning(bal, snapshot, xs, k);
      PostAllMeaning(bal, snapshot, ys, k);
    }
  }

  // ---------------------------------------------------------------- concatenation

  lemma {:induction false} SumsConcat(xs: seq<AmountState>, ys: seq<AmountState>, k: BalanceKey)
    ensures AddAt(xs + ys, k) == AddAt(xs, k) + AddAt(ys, k)
    ensures FeeAt(xs + ys, k) == FeeAt(xs, k) + FeeAt(ys, k)
    ensures AddIn(xs + ys, k.cid) == AddIn(xs, k.cid) + AddIn(ys, k.cid)
    ensures FeeIn(xs + ys, k.cid) == FeeIn(xs, k.cid) + FeeIn(ys, k.cid)
  {
    if ys == [] {
      assert xs + ys == xs;
    } else {
      SumsConcat(xs, ys[..|ys| - 1], k);
      assert (xs + ys)[..|xs + ys| - 1] == xs + ys[..|ys| - 1];
    }
  }

  // ---------------------------------------------------------------- the fee tally

  type Tally = map<CurrencyID, int>

  /** The tally OperationProcessor.setState keeps: positive fees, per currency. */
  function TallyOne(fee: Tally, st: AmountState): Tally {
    if st.fee > 0 then
      fee[st.key.cid := (if st.key.cid in fee then fee[st.key.cid] else 0) + st.fee]
    else
      fee
  }

  function TallyAll(fee: Tally, sts: seq<AmountState>): Tally {
    if sts == [] then fee else TallyOne(TallyAll(fee, sts[..|sts| - 1]), sts[|sts| - 1])
  }

  function TallyOf(fee: Tally, c: CurrencyID): int {
    if c in fee then fee[c] else 0
  }

  ghost predicate NoNegativeFee(sts: seq<AmountState>) {
    forall st :: st in sts ==> st.fee >= 0
  }

  lemma {:induction false} TallyMeaning(fee: Tally, sts: seq<AmountState>, c: CurrencyID)
    requires NoNegativeFee(sts)
    ensures FeeIn(sts, c) >= 0
    ensures TallyOf(TallyAll(fee, sts), c) == TallyOf(fee, c) + FeeIn(sts, c)
    ensures c in TallyAll(fee, sts) <==> c in fee || FeeIn(sts, c) > 0
  {
    if sts != [] {
      assert sts == sts[..|sts| - 1] + [sts[|sts| - 1]];
      TallyMeaning(fee, sts[..|sts| - 1], c);
    }
  }

  lemma SameFeesSameTally(fee: Tally, xs: seq<AmountState>, ys: seq<AmountState>)
    requires NoNegativeFee(xs) && NoNegativeFee(ys)
    requires forall c :: FeeIn(xs, c) == FeeIn(ys, c)
    ensures TallyAll(fee, xs) == TallyAll(fee, ys)
  {
    forall c ensures c in TallyAll(fee, xs) <==> c in TallyAll(fee, ys)
      ensures TallyOf(TallyAll(fee, xs), c) == TallyOf(TallyAll(fee, ys), c)
    {
      TallyMeaning(fee, xs, c);
      TallyMeaning(fee, ys, c);
    }
    forall c | c in TallyAll(fee, xs) ensures TallyAll(fee, xs)[c] == TallyAll(fee, ys)[c] {
      assert TallyOf(TallyAll(fee, xs), c) == TallyOf(TallyAll(fee, ys), c);
    }
  }
}
