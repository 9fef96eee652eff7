/** A whole block driven through the operation processor, as the node does it. */
module BlockRuns {
  import opened AccountKeys
  import opened Facts
  import opened AmountStates
  import opened Ledgers
  import opened Effects
  import opened BlockInvariants
  import opened Closing
  import opened Pools
  import opened OperationProcessors

  lemma ReadyAfter(b: Block, op: Op)
    ensures StepPreProcess(b, op).env == StepProcess(b, op).env == b.env
    ensures StepPreProcess(b, op).ready == if Accepts(b, op) then b.ready + {op} else b.ready
    ensures StepProcess(b, op).ready == b.ready - {op}
    ensures op !in b.ready ==> StepProcess(b, op) == b
  {
    hide Checks, DidOf, Op.Targets, BalanceWrites, AccountWrites, DesignWrites;
  }

  lemma RunNothing(b: Block)
    ensures Run(b, []) == b
  {}

  lemma RunOneMore(b: Block, es: seq<Event>, i: nat)
    requires i < |es|
    ensures Run(b, es[..i + 1]) == Step(Run(b, es[..i]), es[i])
  {
    hide Step;
    assert es[..i + 1][..i] == es[..i];
  }

  /**
    Keeps what PreProcess returned until the operation is processed; what was refused is not kept and
    never processed.
  */
  class Driver {
    const opr: OperationProcessor
    var pending: map<Op, Processor>
    ghost var objects: set<object>

    ghost predicate Waiting(env: Env)
      reads this, objects
    {
      && (forall op :: op in pending ==>
            pending[op].Object() in objects && pending[op].GetOp() == op && pending[op].Prepared(env))
      && (forall x, y :: x in pending && y in pending && x != y ==> pending[x].Object() != pending[y].Object())
    }

    ghost predicate Valid()
      reads this, opr, opr.cp, objects
    {
      && this !in objects && opr !in objects && opr.pool !in objects && opr.cp !in objects
      && opr.Valid() && pending.Keys == opr.ready && Waiting(opr.Snapshot())
    }

    constructor (opr: OperationProcessor)
      requires opr.Valid() && opr.ready == {}
      ensures Valid() && this.opr == opr && objects == {}
    {
      this.opr, pending, objects := opr, map[], {};
    }

    method Keep(p: Processor, ghost env: Env)
      requires Waiting(env) && this !in objects && p.Object() !in objects && p.Object() != this && p.Prepared(env)
      modifies this
      ensures Waiting(env) && objects == old(objects) + {p.Object()} && pending == old(pending)[p.GetOp() := p]
    {
      hide Processor.Prepared, Processor.Object, Processor.GetOp;
      pending := pending[p.GetOp() := p];
      objects := objects + {p.Object()};
    }

    method Submit(op: Op) returns (r: Result)
      requires opr.Valid() && op.IsValid()
      modifies opr
      ensures opr.Valid() && opr.Abs() == StepPreProcess(old(opr.Abs()), op)
      ensures opr.ready == if r.Prepared? then old(opr.ready) + {op} else old(opr.ready)
      ensures r.Prepared? ==> r.p.GetOp() == op && r.p.Prepared(opr.Snapshot()) && fresh(r.p.Object())
    {
      ReadyAfter(opr.Abs(), op);
      hide Op.IsValid, StepPreProcess, Accepts, OperationProcessor.Valid, Processor.Prepared, Processor.Object, View;
      r := opr.PreProcess(op);
    }

    method PreProcess(op: Op)
      requires Valid() && op.IsValid()
      modifies this, opr
      ensures Valid() && fresh(objects - old(objects)) && opr.Abs() == StepPreProcess(old(opr.Abs()), op)
    {
      hide Op.IsValid, StepPreProcess, OperationProcessor.Valid, Processor.Prepared, Processor.Object, Processor.GetOp, Waiting;
      hide OperationProcessor.Abs, OperationProcessor.Snapshot;
      ghost var env := opr.Snapshot();
      var r := Submit(op);
      if r.Prepared? { Keep(r.p, env); }
    }

    method Process(op: Op)
      requires Valid()
      modifies this, opr, opr.pool, objects
      ensures Valid() && objects == old(objects) && opr.Abs() == StepProcess(old(opr.Abs()), op)
    {
      ReadyAfter(opr.Abs(), op);
      hide StepProcess, OperationProcessor.Valid, Processor.Prepared, Processor.Object, Processor.GetOp, View;
      if op in pending {
        opr.Process(pending[op]);
        pending := pending - {op};
      }
    }

    method RunEvents(es: seq<Event>)
      requires Valid() && ValidEvents(es)
      modifies this, opr, opr.pool, objects
      ensures Valid() && opr.Abs() == Run(old(opr.Abs()), es)
    {
      ghost var b := opr.Abs();
      RunNothing(b);
      hide Op.IsValid, StepPreProcess, StepProcess, Run, Valid, OperationProcessor.Abs;
      for i := 0 to |es|
        invariant Valid() && fresh(objects - old(objects)) && opr.Abs() == Run(b, es[..i])
      {
        RunOneMore(b, es, i);
        assert es[i] in es;
        match es[i] {
          case PreProcess(op) => PreProcess(op);
          case Process(op) => Process(op);
        }
      }
      assert es[..|es|] == es;
    }
  }

  /** The ledger a reader finds once the updates of the pool are saved. */
  ghost function Saved(pool: Statepool): Ledger
    reads pool
  {
    Ledger(pool.base.accounts + pool.accounts,
           pool.base.balances + Values(View(pool.balances)),
           pool.base.designs + pool.designs)
  }

  /**
    A block from New to Close: on a good ledger it always closes, and what is saved is the committed
    block, a good ledger again.
  */
  method RunBlock(cp: CurrencyPool, pool: Statepool, pubs: seq<Publickey>, threshold: nat, es: seq<Event>)
    returns (r: CloseResult)
    requires pool.balances == map[] && pool.accounts == map[] && pool.designs == map[]
    requires ValidEvents(es)
    modifies pool
    ensures var b := Run(Fresh(Env(pool.base, cp.demap, pubs, threshold)), es);
            && (r == Closed <==> Payable(b))
            && (r == Closed ==> Saved(pool) == Commit(b))
    ensures GoodEnv(Env(pool.base, cp.demap, pubs, threshold)) ==> r == Closed && Good(Saved(pool))
  {
    ghost var env := Env(pool.base, cp.demap, pubs, threshold);
    var opr := new OperationProcessor.New(cp, pool, pubs, threshold);
    var driver := new Driver(opr);
    driver.RunEvents(es);
    r := opr.Close();
    RunEnv(env, es);
    if GoodEnv(env) {
      RunKeepsInv(env, es);
      CommitGood(Run(Fresh(env), es));
    }
  }

  lemma {:induction false} RunEnv(env: Env, es: seq<Event>)
    ensures Run(Fresh(env), es).env == env
  {
    hide Checks, BalanceWrites, AccountWrites, DesignWrites;
    if es != [] { RunEnv(env, es[..|es| - 1]); }
  }
}
