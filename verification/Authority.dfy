/** Who can change what: nothing of an account moves without its signatures, no design without the suffrage. */
module Authority {
  import opened Prelude
  import opened Feeers
  import opened StateKeys
  import opened AccountKeys
  import opened Facts
  import opened AmountStates
  import opened Ledgers
  import opened Effects
  import opened BlockInvariants
  import opened Closing

  /** The public keys who all belong to account a, and together they weigh at least its threshold. */
  ghost predicate Empowered(env: Env, a: Address, who: set<Publickey>) {
    && Exists(env, a)
    && (forall p :: p in who ==> Registered(env.base.accounts[a].keys.keys, p))
    && Sum(who, WeightOf(env.base.accounts[a].keys.keys)) >= env.base.accounts[a].keys.threshold
  }

  /** A processed operation of a, signed by enough different keys a had before the block. */
  ghost predicate Authorised(b: Block, a: Address, op: Op) {
    op in b.done && DidOf(op) == SenderDid(a) && Empowered(b.env, a, SignerSet(op.signers))
  }

  lemma SenderSigned(b: Block, a: Address, op: Op)
    requires Bookkeeping(b) && op in b.done && DidOf(op) == SenderDid(a)
    ensures Authorised(b, a, op)
  {
    ProcessedOperation(b, op);
    SenderPasses(b.env, a, op);
    hide Checks, Bookkeeping, PassesThreshold, Op.ValidFact, SignerSet, WeightOf;
    ThresholdMeaning(op.signers, b.env.base.accounts[a].keys);
  }

  lemma SenderPasses(env: Env, a: Address, op: Op)
    requires Checks(env, op) && DidOf(op) == SenderDid(a)
    ensures SignedBy(env, a, op.signers)
  {
    hide CanPay, Flatten, KeysEqual, PassesThreshold;
  }

  /** The nodes among the public keys who. */
  ghost function NodesAmong(env: Env, who: set<Publickey>): set<Publickey> {
    set p | p in who && p in env.pubs
  }

  /** For distinct signers the count is the number of different suffrage nodes that signed. */
  lemma {:induction false} CountSuffrageMeaning(env: Env, signers: seq<Publickey>)
    requires DistinctSigners(signers)
    ensures CountSuffrage(env.pubs, signers) == |NodesAmong(env, SignerSet(signers))|
  {
    if signers != [] {
      var front, last := signers[..|signers| - 1], signers[|signers| - 1];
      CountSuffrageMeaning(env, front);
      assert SignerSet(signers) == SignerSet(front) + {last} && last !in SignerSet(front);
      if last in env.pubs {
        assert NodesAmong(env, SignerSet(signers)) == NodesAmong(env, SignerSet(front)) + {last};
      } else {
        assert NodesAmong(env, SignerSet(signers)) == NodesAmong(env, SignerSet(front));
      }
    }
  }

  predicate Lost(was: Ledger, now: Ledger, k: BalanceKey) {
    k in was.balances && k in now.balances && now.balances[k] < was.balances[k]
  }

  predicate AccountChanged(was: Ledger, now: Ledger, a: Address) {
    a in was.accounts && a in now.accounts && now.accounts[a] != was.accounts[a]
  }

  predicate DesignChanged(was: Ledger, now: Ledger, c: CurrencyID) {
    c in now.designs && (c !in was.designs || now.designs[c] != was.designs[c])
  }

  /** A balance is lower after the block only if its owner signed for an operation in it. */
  lemma SpendingIsSigned(env: Env, es: seq<Event>, k: BalanceKey)
    requires GoodEnv(env) && ValidEvents(es) && Lost(env.base, Commit(Run(Fresh(env), es)), k)
    ensures exists op :: Authorised(Run(Fresh(env), es), k.addr, op)
  {
    RunKeepsInv(env, es);
    var b := Run(Fresh(env), es);
    ClosePays(b);
    SpentDebited(b, k);
    var op :| op in b.done && DidOf(op) == SenderDid(k.addr);
    SenderSigned(b, k.addr, op);
  }

  lemma SpentDebited(b: Block, k: BalanceKey)
    requires BlockInv(b) && Payable(b) && Lost(b.env.base, Commit(b), k)
    ensures Debited(b, k.addr)
  {
    SavedIsCommitted(b);
    hide GoodEnv, Bookkeeping, Conserved, TallyExact, Sited, WrittenOnce, Payable, Commit, SavedBalances, Now;
    CloseKeepsBalances(b, k);
    assert Before(b, k) == b.env.base.balances[k];
  }

  lemma SavedIsCommitted(b: Block)
    ensures Commit(b).balances == SavedBalances(b)
  {}

  /** The keys of an account change only by a key update the old keys signed for. */
  lemma KeyChangeIsSigned(env: Env, es: seq<Event>, a: Address)
    requires GoodEnv(env) && ValidEvents(es) && AccountChanged(env.base, Commit(Run(Fresh(env), es)), a)
    ensures exists op: Op ::
              && op.KeyUpdater? && Authorised(Run(Fresh(env), es), a, op)
              && Commit(Run(Fresh(env), es)).accounts[a].keys == op.keys
  {
    RunKeepsInv(env, es);
    var b := Run(Fresh(env), es);
    var op := KeyChanger(b, a);
    assert Authorised(b, a, op);
  }

  lemma KeyChanger(b: Block, a: Address) returns (op: Op)
    requires BlockInv(b) && AccountChanged(b.env.base, Commit(b), a)
    ensures op.KeyUpdater? && Authorised(b, a, op) && Commit(b).accounts[a].keys == op.keys
  {
    hide GoodEnv, Conserved, TallyExact, Solvent, Sited, Checks, Op.IsValid, DidOf, Op.Targets, Paid;
    hide AccountWrites, Bookkeeping;
    op :| op in b.done && a in AccountsBy(b.env)(op);
    ProcessedOperation(b, op);
    WriterOfExisting(b.env, op, a);
    SenderSigned(b, a, op);
  }

  lemma WriterOfExisting(env: Env, op: Op, a: Address)
    requires Checks(env, op) && a in env.base.accounts && a in AccountWrites(env, op)
    ensures op.KeyUpdater? && op.target == a && AccountWrites(env, op)[a].keys == op.keys && DidOf(op) == SenderDid(a)
  {
    hide CanPay, SignedBy, Flatten, KeysEqual;
    if op.CreateAccounts? { CreatedMeaning(op.accounts); }
  }

  /** A processed operation about currency c, signed by enough different suffrage nodes. */
  ghost predicate Mandated(b: Block, c: CurrencyID, op: Op) {
    && op in b.done && DidOf(op) == CurrencyDid(c)
    && b.env.pubs != [] && |NodesAmong(b.env, SignerSet(op.signers))| >= b.env.quorum
  }

  /** A currency is registered, or its policy changed, only with enough signatures of suffrage nodes. */
  lemma DesignChangeIsSigned(env: Env, es: seq<Event>, c: CurrencyID)
    requires GoodEnv(env) && ValidEvents(es) && DesignChanged(env.base, Commit(Run(Fresh(env), es)), c)
    ensures exists op :: Mandated(Run(Fresh(env), es), c, op)
  {
    RunKeepsInv(env, es);
    var op := DesignChanger(Run(Fresh(env), es), c);
  }

  lemma DesignChanger(b: Block, c: CurrencyID) returns (op: Op)
    requires BlockInv(b) && DesignChanged(b.env.base, Commit(b), c)
    ensures Mandated(b, c, op)
  {
    hide GoodEnv, Conserved, TallyExact, Solvent, Sited, Checks, Op.ValidFact, DidOf, Op.Targets, Paid, DesignWrites;
    hide Bookkeeping, NodesAmong, SignerSet, DistinctSigners;
    op := DesignWriter(b, c);
    WriterOfDesign(b.env, op, c);
    CountSuffrageMeaning(b.env, op.signers);
  }

  lemma WriterOfDesign(env: Env, op: Op, c: CurrencyID)
    requires Checks(env, op) && c in DesignWrites(env, op)
    ensures DidOf(op) == CurrencyDid(c) && SignedBySuffrage(env, op.signers)
  {
    hide SignedBySuffrage;
  }
}
