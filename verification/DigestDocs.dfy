/** What the digest stores for a block: documents cut out of its operations and states. */
module DigestDocs {
  import opened Prelude
  import opened Feeers
  import opened StateKeys
  import opened Facts
  import opened OperationPages

  datatype StateValue = AccountValue(account: Account) | AmountValue(am: Amount) | DesignValue(design: Design)

  datatype SavedState = SavedState(key: string, height: int, previousHeight: int, value: StateValue)

  datatype OpRecord = OpRecord(fact: string, addresses: seq<Address>)

  /** Whether an operation was taken into the state, and why not. */
  datatype TreeNode = TreeNode(inState: bool, reason: string)

  /** A block as it is read back, with a tree node for each fact. */
  datatype BlockData = BlockData(
    height: int,
    confirmedAt: int,
    operations: seq<OpRecord>,
    tree: map<string, TreeNode>,
    states: seq<SavedState>)

  datatype Doc =
    | OperationEntry(op: OperationDoc)
    | AccountEntry(address: string, h: int, account: Account)
    | BalanceEntry(address: string, currency: CurrencyID, h: int, previous: int, big: int)
  {
    function Height(): int {
      if OperationEntry? then op.height else h
    }
  }

  function Prefixes(addrs: seq<Address>): seq<string> {
    seq(|addrs|, i requires 0 <= i < |addrs| => AddressPrefix(addrs[i]))
  }

  // ---------------------------------------------------------------- documents of a block

  predicate InTree(blk: BlockData) {
    forall op :: op in blk.operations ==> op.fact in blk.tree
  }

  function OperationModel(blk: BlockData, i: nat): Doc
    requires i < |blk.operations| && blk.operations[i].fact in blk.tree
  {
    var op, node := blk.operations[i], blk.tree[blk.operations[i].fact];
    OperationEntry(OperationDoc(op.fact, blk.height, i, Prefixes(op.addresses), blk.confirmedAt, node.inState, node.reason))
  }

  /** The i-th operation is stored under index i. */
  function OperationDocs(blk: BlockData): (ds: seq<Doc>)
    requires InTree(blk)
    ensures |ds| == |blk.operations|
  {
    seq(|blk.operations|, i requires 0 <= i < |blk.operations| => OperationModel(blk, i))
  }

  /** A state the session can turn into a document, or ignores. */
  predicate Digestible(s: SavedState) {
    if IsAccountKey(s.key) then s.value.AccountValue?
    else IsBalanceKey(s.key) ==> s.value.AmountValue? && |s.key| >= |BALANCE_SUFFIX| + |s.value.am.cid| + 1
  }

  predicate AllDigestible(sts: seq<SavedState>) {
    forall s :: s in sts ==> Digestible(s)
  }

  /** handleAccountState and handleBalanceState, told apart by the key alone. */
  function DocOfState(s: SavedState): Option<Doc>
    requires Digestible(s)
  {
    if IsAccountKey(s.key) then
      Some(AccountEntry(AddressPrefix(s.value.account.address), s.height, s.value.account))
    else if IsBalanceKey(s.key) then
      var am := s.value.am;
      Some(BalanceEntry(BalanceDocAddress(s.key, am.cid), am.cid, s.height, s.previousHeight, am.big))
    else None
  }

  function AccountDocs(sts: seq<SavedState>): seq<Doc>
    requires AllDigestible(sts)
  {
    if sts == [] then []
    else
      var rest, doc := AccountDocs(sts[..|sts| - 1]), DocOfState(sts[|sts| - 1]);
      if doc.Some? && doc.value.AccountEntry? then rest + [doc.value] else rest
  }

  function BalanceDocs(sts: seq<SavedState>): seq<Doc>
    requires AllDigestible(sts)
  {
    if sts == [] then []
    else
      var rest, doc := BalanceDocs(sts[..|sts| - 1]), DocOfState(sts[|sts| - 1]);
      if doc.Some? && doc.value.BalanceEntry? then rest + [doc.value] else rest
  }

  /** The block can be digested at all. */
  predicate Prepared(blk: BlockData) {
    InTree(blk) && AllDigestible(blk.states)
  }

  function DocsOf(blk: BlockData): seq<Doc>
    requires Prepared(blk)
  {
    OperationDocs(blk) + AccountDocs(blk.states) + BalanceDocs(blk.states)
  }

  /** The states of a saved block carry its height. */
  predicate StatesAtHeight(blk: BlockData) {
    forall s :: s in blk.states ==> s.height == blk.height
  }

  lemma {:induction false} StateDocMembers(sts: seq<SavedState>, d: Doc)
    requires AllDigestible(sts)
    ensures d in AccountDocs(sts) <==> d.AccountEntry? && exists s :: s in sts && DocOfState(s) == Some(d)
    ensures d in BalanceDocs(sts) <==> d.BalanceEntry? && exists s :: s in sts && DocOfState(s) == Some(d)
  {
    hide Digestible, DocOfState;
    if sts != [] {
      var front, last := sts[..|sts| - 1], sts[|sts| - 1];
      assert sts == front + [last];
      StateDocMembers(front, d);
    }
  }

  lemma DocsAtHeight(blk: BlockData, d: Doc)
    requires Prepared(blk) && StatesAtHeight(blk) && d in DocsOf(blk)
    ensures d.Height() == blk.height
  {
    hide Digestible, IsAccountKey, IsBalanceKey, BalanceDocAddress;
    if d in OperationDocs(blk) {
      var i :| 0 <= i < |blk.operations| && OperationDocs(blk)[i] == d;
    } else {
      StateDocMembers(blk.states, d);
    }
  }

  // ---------------------------------------------------------------- preparing a session

  method PrepareOperations(blk: BlockData) returns (models: Option<seq<Doc>>)
    ensures models.Some? <==> InTree(blk)
    ensures models.Some? ==> models.value == OperationDocs(blk)
  {
    hide Prefixes;
    var ms: seq<Doc> := [];
    for i := 0 to |blk.operations|
      invariant |ms| == i
      invariant forall j :: 0 <= j < i ==> blk.operations[j].fact in blk.tree
      invariant forall j :: 0 <= j < i ==> ms[j] == OperationModel(blk, j)
    {
      var op := blk.operations[i];
      if op.fact !in blk.tree {
        assert op in blk.operations;
        return None;
      }
      var node := blk.tree[op.fact];
      ms := ms + [OperationEntry(OperationDoc(op.fact, blk.height, i, Prefixes(op.addresses), blk.confirmedAt, node.inState, node.reason))];
    }
    return Some(ms);
  }

  method PrepareAccounts(blk: BlockData) returns (models: Option<(seq<Doc>, seq<Doc>)>)
    ensures models.Some? <==> AllDigestible(blk.states)
    ensures models.Some? ==> models.value == (AccountDocs(blk.states), BalanceDocs(blk.states))
  {
    hide IsAccountKey, IsBalanceKey, BalanceDocAddress;
    var accounts: seq<Doc>, balances: seq<Doc> := [], [];
    for i := 0 to |blk.states|
      invariant AllDigestible(blk.states[..i])
      invariant accounts == AccountDocs(blk.states[..i]) && balances == BalanceDocs(blk.states[..i])
    {
      var st := blk.states[i];
      assert blk.states[..i + 1][..i] == blk.states[..i] && st in blk.states;
      if !Digestible(st) { return None; }
      if IsAccountKey(st.key) {
        accounts := accounts + [AccountEntry(AddressPrefix(st.value.account.address), st.height, st.value.account)];
      } else if IsBalanceKey(st.key) {
        var am := st.value.am;
        balances := balances +
          [BalanceEntry(BalanceDocAddress(st.key, am.cid), am.cid, st.height, st.previousHeight, am.big)];
      }
    }
    assert blk.states[..|blk.states|] == blk.states;
    return Some((accounts, balances));
  }
}
