/** The outcome of a block does not depend on the order in which its operations are handled. */
module Order {
  import opened Prelude
  import opened StateKeys
  import opened Facts
  import opened AmountStates
  import opened Ledgers
  import opened Effects
  import opened BlockInvariants

  // ---------------------------------------------------------------- schedules

  /** No event twice, and nothing is processed before it was pre-processed. */
  ghost predicate Orderly(es: seq<Event>, ops: set<Op>) {
    && (forall i, j :: 0 <= i < j < |es| ==> es[i] != es[j])
    && (forall e :: e in es ==> e.op in ops)
    && (forall j :: 0 <= j < |es| && es[j].Process? ==> exists i :: 0 <= i < j && es[i] == PreProcess(es[j].op))
  }

  /** Each operation is pre-processed once and, some time later, processed once. */
  ghost predicate Schedule(es: seq<Event>, ops: set<Op>) {
    Orderly(es, ops) && forall op :: op in ops ==> PreProcess(op) in es && Process(op) in es
  }

  /** Any two of the operations could be in one block. */
  ghost predicate Compatible(env: Env, ops: set<Op>) {
    && (forall op :: op in ops ==> Checks(env, op))
    && (forall x, y :: x in ops && y in ops && x != y ==> DidOf(x) != DidOf(y) && x.Targets() !! y.Targets())
  }

  lemma AcceptedCompatible(b: Block)
    requires Bookkeeping(b)
    ensures Compatible(b.env, b.done)
  {}

  /** The bookkeeping after the events es, none of which was refused. */
  ghost predicate Tracks(b: Block, es: seq<Event>) {
    && (forall op :: op in b.ready <==> PreProcess(op) in es && Process(op) !in es)
    && (forall op :: op in b.done <==> Process(op) in es)
    && (forall d :: d in b.duplicated ==> exists op :: PreProcess(op) in es && DidOf(op) == d)
    && (forall a :: a in b.newAddresses ==> exists op :: PreProcess(op) in es && a in op.Targets())
  }

  lemma PreProcessTracks(b: Block, es: seq<Event>, op: Op, ops: set<Op>)
    requires Compatible(b.env, ops) && Tracks(b, es) && op in ops
    requires forall e :: e in es ==> e.op in ops
    requires PreProcess(op) !in es && Process(op) !in es
    ensures Accepts(b, op) && Tracks(StepPreProcess(b, op), es + [PreProcess(op)])
  {
    hide Checks, DidOf, Op.Targets;
    forall d | d in b.duplicated ensures d != DidOf(op) {
      var x :| PreProcess(x) in es && DidOf(x) == d;
      assert PreProcess(x).op in ops;
    }
    forall a | a in b.newAddresses ensures a !in op.Targets() {
      var x :| PreProcess(x) in es && a in x.Targets();
      assert PreProcess(x).op in ops;
    }
    var c, fs := StepPreProcess(b, op), es + [PreProcess(op)];
    assert PreProcess(op) in fs && forall e :: e in es ==> e in fs;
    forall d | d in c.duplicated ensures exists x :: PreProcess(x) in fs && DidOf(x) == d {
      if d in b.duplicated {
        var x :| PreProcess(x) in es && DidOf(x) == d;
        assert PreProcess(x) in fs;
      }
    }
    forall a | a in c.newAddresses ensures exists x :: PreProcess(x) in fs && a in x.Targets() {
      if a in b.newAddresses {
        var x :| PreProcess(x) in es && a in x.Targets();
        assert PreProcess(x) in fs;
      }
    }
  }

  lemma ProcessTracks(b: Block, es: seq<Event>, op: Op)
    requires Tracks(b, es) && PreProcess(op) in es && Process(op) !in es
    ensures op in b.ready && Tracks(Effect(b, op), es + [Process(op)])
  {}

  lemma OrderlyFront(es: seq<Event>, ops: set<Op>)
    requires Orderly(es, ops) && es != []
    ensures var front, e := es[..|es| - 1], es[|es| - 1];
            && Orderly(front, ops) && e.op in ops && e !in front
            && (e.PreProcess? ==> Process(e.op) !in front)
            && (e.Process? ==> PreProcess(e.op) in front)
  {}

  /** Compatible operations are all accepted, in whatever order they come. */
  lemma {:induction false} ScheduleTracks(env: Env, ops: set<Op>, es: seq<Event>)
    requires Compatible(env, ops) && Orderly(es, ops)
    ensures Tracks(Run(Fresh(env), es), es) && Run(Fresh(env), es).env == env
  {
    hide Compatible, Tracks, Step;
    if es == [] {
      TracksNothing(env);
    } else {
      var front, e := es[..|es| - 1], es[|es| - 1];
      OrderlyFront(es, ops);
      ScheduleTracks(env, ops, front);
      assert es == front + [e];
      TrackStep(Run(Fresh(env), front), front, e, ops);
    }
  }

  lemma TracksNothing(env: Env)
    ensures Tracks(Fresh(env), [])
  {}

  lemma TrackStep(b: Block, es: seq<Event>, e: Event, ops: set<Op>)
    requires Compatible(b.env, ops) && Tracks(b, es) && e.op in ops && e !in es
    requires forall x :: x in es ==> x.op in ops
    requires e.PreProcess? ==> Process(e.op) !in es
    requires e.Process? ==> PreProcess(e.op) in es
    ensures Tracks(Step(b, e), es + [e]) && Step(b, e).env == b.env
  {
    hide Compatible, Tracks, Effect;
    if e.PreProcess? {
      PreProcessTracks(b, es, e.op, ops);
    } else {
      ProcessTracks(b, es, e.op);
      EffectEnv(b, e.op);
    }
  }

  lemma EffectEnv(b: Block, op: Op)
    ensures Effect(b, op).env == b.env
  {}

  // ---------------------------------------------------------------- the outcome as a function of the set

  ghost function AddBy(env: Env, k: BalanceKey): Op -> int {
    op => AddAt(BalanceWrites(env, op), k)
  }

  ghost function FeeBy(env: Env, k: BalanceKey): Op -> int {
    op => FeeAt(BalanceWrites(env, op), k)
  }

  ghost function FeeInBy(env: Env, c: CurrencyID): Op -> int {
    op => FeeIn(BalanceWrites(env, op), c)
  }

  ghost predicate TouchedBy(env: Env, ops: set<Op>, k: BalanceKey) {
    exists op :: op in ops && Touched(BalanceWrites(env, op), k)
  }

  /** The written state is determined by the set of processed operations. */
  ghost predicate Summary(b: Block) {
    && (forall k :: k in b.bal <==> TouchedBy(b.env, b.done, k))
    && (forall k :: BalanceOf(b.bal, b.env.base.balances, k) ==
                    Bal(Before(b, k) + Sum(b.done, AddBy(b.env, k)), Sum(b.done, FeeBy(b.env, k))))
    && (forall c :: TallyOf(b.fee, c) == Sum(b.done, FeeInBy(b.env, c)))
  }

  lemma FreshSummary(env: Env)
    ensures Summary(Fresh(env))
  {}

  lemma EffectSummaryAt(b: Block, op: Op, k: BalanceKey)
    requires WellFormed(b.env, op) && op !in b.done && Summary(b)
    ensures var c := Effect(b, op);
            && (k in c.bal <==> TouchedBy(b.env, b.done + {op}, k))
            && BalanceOf(c.bal, b.env.base.balances, k) ==
               Bal(Before(b, k) + Sum(b.done + {op}, AddBy(b.env, k)), Sum(b.done + {op}, FeeBy(b.env, k)))
            && TallyOf(c.fee, k.cid) == Sum(b.done + {op}, FeeInBy(b.env, k.cid))
  {
    hide BalanceWrites, AccountWrites, DesignWrites, Touched, Sourced, NoNegativeFee, BalanceOf;
    var sts := BalanceWrites(b.env, op);
    PostAllMeaning(b.bal, b.env.base.balances, sts, k);
    TallyMeaning(b.fee, sts, k.cid);
    SumInsert(b.done, AddBy(b.env, k), op);
    SumInsert(b.done, FeeBy(b.env, k), op);
    SumInsert(b.done, FeeInBy(b.env, k.cid), op);
    TouchedInsert(b.env, b.done, op, k);
  }

  lemma TouchedInsert(env: Env, ops: set<Op>, op: Op, k: BalanceKey)
    ensures TouchedBy(env, ops + {op}, k) <==> TouchedBy(env, ops, k) || Touched(BalanceWrites(env, op), k)
  {}

  lemma EffectSummary(b: Block, op: Op)
    requires WellFormed(b.env, op) && op !in b.done && Summary(b)
    ensures Summary(Effect(b, op))
  {
    hide Summary, WellFormed, BalanceWrites, AccountWrites, DesignWrites, PostAll, TallyAll, BalanceOf;
    hide TouchedBy, AddBy, FeeBy, FeeInBy;
    var c := Effect(b, op);
    forall k
      ensures k in c.bal <==> TouchedBy(c.env, c.done, k)
      ensures BalanceOf(c.bal, c.env.base.balances, k) ==
              Bal(Before(c, k) + Sum(c.done, AddBy(c.env, k)), Sum(c.done, FeeBy(c.env, k)))
    {
      EffectSummaryAt(b, op, k);
    }
    forall d ensures TallyOf(c.fee, d) == Sum(c.done, FeeInBy(c.env, d)) {
      EffectSummaryAt(b, op, BK("", d));
    }
    MakeSummary(c);
  }

  lemma MakeSummary(b: Block)
    requires forall k :: k in b.bal <==> TouchedBy(b.env, b.done, k)
    requires forall k :: BalanceOf(b.bal, b.env.base.balances, k) ==
                    Bal(Before(b, k) + Sum(b.done, AddBy(b.env, k)), Sum(b.done, FeeBy(b.env, k)))
    requires forall c :: TallyOf(b.fee, c) == Sum(b.done, FeeInBy(b.env, c))
    ensures Summary(b)
  {
    hide BalanceOf, TouchedBy, AddBy, FeeBy, FeeInBy;
  }

  lemma SameSummary(b: Block, c: Block)
    requires SameRecords(b, c) && Summary(b)
    ensures Summary(c)
  {
    hide BalanceOf, TouchedBy, AddBy, FeeBy, FeeInBy;
  }

  lemma {:induction false} RunSummary(env: Env, es: seq<Event>)
    requires GoodEnv(env) && ValidEvents(es)
    ensures Summary(Run(Fresh(env), es))
  {
    hide GoodEnv, BlockInv, Op.IsValid, Summary, Effect, Balanced, Covered, Placed, WellFormed;
    if es == [] {
      FreshSummary(env);
    } else {
      var front, e := es[..|es| - 1], es[|es| - 1];
      assert e in es && forall x :: x in front ==> x in es;
      var b := Run(Fresh(env), front);
      RunSummary(env, front);
      RunKeepsInv(env, front);
      if e.PreProcess? {
        SameSummary(b, StepPreProcess(b, e.op));
      } else if e.op in b.ready {
        EffectSummaryOfReady(b, e.op);
      }
    }
  }

  lemma EffectSummaryOfReady(b: Block, op: Op)
    requires BlockInv(b) && Summary(b) && op in b.ready
    ensures Summary(Effect(b, op))
  {
    hide GoodEnv, Checks, Op.IsValid, Summary, WellFormed, DidOf, Op.Targets, Conserved, Solvent, Sited;
    hide TallyExact, WrittenOnce;
    ReadyOperation(b, op);
    EffectSummary(b, op);
  }

  /** Everything the block writes to the ledger. */
  ghost predicate SameOutcome(b: Block, c: Block) {
    b.bal == c.bal && b.acc == c.acc && b.des == c.des && b.fee == c.fee
  }

  lemma SameSetSameOutcome(b: Block, c: Block)
    requires BlockInv(b) && BlockInv(c) && Summary(b) && Summary(c)
    requires b.env == c.env && b.done == c.done
    ensures SameOutcome(b, c)
  {
    hide GoodEnv, Bookkeeping, Conserved, Solvent, Sited, TouchedBy, AddBy, FeeBy, FeeInBy, Supply, AccountsBy;
    hide DesignsBy;
    forall k ensures k in b.bal <==> k in c.bal
      ensures k in b.bal ==> b.bal[k] == c.bal[k]
    {
      assert BalanceOf(b.bal, b.env.base.balances, k) == BalanceOf(c.bal, b.env.base.balances, k);
    }
    forall d ensures d in b.fee <==> d in c.fee
      ensures d in b.fee ==> b.fee[d] == c.fee[d]
    {
      assert TallyOf(b.fee, d) == TallyOf(c.fee, d);
    }
    SameUnion(b.acc, c.acc, b.done, AccountsBy(b.env));
    SameUnion(b.des, c.des, b.done, DesignsBy(b.env));
  }

  lemma SameUnion<K(!new), V>(m: map<K, V>, n: map<K, V>, s: set<Op>, f: Op -> map<K, V>)
    requires IsUnion(m, s, f) && IsUnion(n, s, f)
    ensures m == n
  {}

  // ---------------------------------------------------------------- the theorem

  /**
    If one schedule of the operations gets all of them accepted, then so does every other schedule,
    and both end in the same balances, accounts, designs and fees.
  */
  lemma OrderDoesNotMatter(env: Env, ops: set<Op>, es: seq<Event>, fs: seq<Event>)
    requires GoodEnv(env) && forall op :: op in ops ==> op.IsValid()
    requires Schedule(es, ops) && Schedule(fs, ops)
    requires Run(Fresh(env), es).done == ops
    ensures Run(Fresh(env), fs).done == ops
    ensures SameOutcome(Run(Fresh(env), es), Run(Fresh(env), fs))
    ensures Commit(Run(Fresh(env), es)) == Commit(Run(Fresh(env), fs))
  {
    hide GoodEnv, Op.IsValid, Compatible, Summary, BlockInv, Run, Fresh, Commit, SameOutcome;
    var b, c := Run(Fresh(env), es), Run(Fresh(env), fs);
    assert ValidEvents(es) && ValidEvents(fs);
    RunKeepsInv(env, es);
    RunKeepsInv(env, fs);
    RunSummary(env, es);
    RunSummary(env, fs);
    BookkeepingOf(b);
    AcceptedCompatible(b);
    AllAccepted(env, ops, fs);
    SameSetSameOutcome(b, c);
    SameCommit(b, c);
  }

  lemma BookkeepingOf(b: Block)
    requires BlockInv(b)
    ensures Bookkeeping(b)
  {
    hide GoodEnv, Bookkeeping, Conserved, TallyExact, Solvent, Sited, WrittenOnce;
  }

  lemma SamePaid(b: Block, c: Block)
    requires b.bal == c.bal && b.fee == c.fee && b.env == c.env
    ensures Paid(b) == Paid(c)
  {}

  lemma SameCommit(b: Block, c: Block)
    requires SameOutcome(b, c) && b.env == c.env
    ensures Commit(b) == Commit(c)
  {
    SamePaid(b, c);
    hide Paid, Values;
  }

  /** Pairwise compatible operations are all accepted and processed under any schedule. */
  lemma AllAccepted(env: Env, ops: set<Op>, es: seq<Event>)
    requires Compatible(env, ops) && Schedule(es, ops)
    ensures Run(Fresh(env), es).done == ops
  {
    hide Compatible, Run, Fresh, Op.IsValid;
    ScheduleTracks(env, ops, es);
  }
}
