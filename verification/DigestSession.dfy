/** The digester itself: its database, the session that writes one block, and the loop that catches up. */
module DigestSession {
  import opened Prelude
  import opened DigestDocs
  import opened DigestStore
  import opened DigestRuns

  /** The collections of the database server, with the history of the calls made to it. */
  class Store {
    var docs: multiset<Doc>
    var marker: Option<int>
    ghost const initial: Contents
    ghost var calls: seq<Call>

    ghost predicate Valid()
      reads this
    {
      Abs() == ApplyAll(initial, calls)
    }

    ghost function Abs(): Contents
      reads this
    {
      Contents(docs, marker)
    }

    constructor ()
      ensures Valid() && Abs() == EMPTY.db.contents && calls == []
    {
      docs, marker := multiset{}, None;
      initial, calls := Contents(multiset{}, None), [];
    }

    ghost method Record(c: Call)
      requires Contents(docs, marker) == Apply(ApplyAll(initial, calls), c)
      modifies `calls
      ensures Valid() && calls == old(calls) + [c]
    {
      assert (calls + [c])[..|calls|] == calls;
      calls := calls + [c];
    }

    /** Drops the collections. */
    method Drop(ghost h: int)
      requires Valid() && h <= PRE_GENESIS_HEIGHT + 1
      modifies this
      ensures Valid() && calls == old(calls) + [DeleteFrom(h)] && marker == old(marker)
    {
      docs := multiset{};
      Record(DeleteFrom(h));
    }

    /** DeleteMany on all collections: height >= h. */
    method DeleteMany(h: int)
      requires Valid() && h > PRE_GENESIS_HEIGHT + 1
      modifies this
      ensures Valid() && calls == old(calls) + [DeleteFrom(h)] && marker == old(marker)
    {
      var todo, kept: multiset<Doc> := docs, multiset{};
      ghost var all := docs;
      while todo != multiset{}
        invariant docs == all && Valid() && calls == old(calls) && marker == old(marker)
        invariant forall d: Doc :: kept[d] + (if d.Height() < h then todo[d] else 0) == if d.Height() < h then all[d] else 0
        decreases |todo|
      {
        var d :| d in todo;
        if d.Height() < h { kept := kept + multiset{d}; }
        todo := todo - multiset{d};
      }
      forall d: Doc ensures kept[d] == Below(all, h)[d] { BelowCount(all, h, d); }
      SameDocs(kept, Below(all, h));
      docs := kept;
      Record(DeleteFrom(h));
    }

    method BulkWrite(ds: seq<Doc>)
      requires Valid()
      modifies this
      ensures Valid() && calls == old(calls) + [Insert(ds)] && marker == old(marker)
    {
      docs := docs + multiset(ds);
      Record(Insert(ds));
    }

    method SetInfo(height: int)
      requires Valid()
      modifies this
      ensures Valid() && calls == old(calls) + [SetMarker(height)] && marker == Some(height)
    {
      marker := Some(height);
      Record(SetMarker(height));
    }
  }

  class Database {
    const store: Store
    const readonly: bool
    var lastBlock: int

    constructor (store: Store, readonly: bool)
      ensures this.store == store && this.readonly == readonly && lastBlock == NIL_HEIGHT
    {
      this.store, this.readonly, lastBlock := store, readonly, NIL_HEIGHT;
    }

    ghost function Abs(): Db
      reads this, store
    {
      Db(store.Abs(), lastBlock)
    }

    method SetLastBlockUnchecked(height: int)
      requires store.Valid()
      modifies this, store
      ensures store.Valid() && store.calls == old(store.calls) + [SetMarker(height)] && lastBlock == height
    {
      store.SetInfo(height);
      lastBlock := height;
    }

    /** A readonly database refuses; a height that is not new changes neither memory nor stored marker. */
    method SetLastBlock(height: int) returns (ok: bool)
      requires store.Valid()
      modifies this, store
      ensures ok <==> !readonly
      ensures store.Valid() && lastBlock == if ok then Max(old(lastBlock), height) else old(lastBlock)
      ensures store.calls == old(store.calls) + if !ok || height <= old(lastBlock) then [] else [SetMarker(height)]
    {
      assert store.calls == old(store.calls) + [];
      if readonly { return false; }
      if height <= lastBlock { return true; }
      SetLastBlockUnchecked(height);
      return true;
    }

    /** CleanByHeight of a writable database, and cleanByHeight. */
    method Clean(height: int)
      requires store.Valid()
      modifies this, store
      ensures store.Valid() && store.calls == old(store.calls) + CleanCalls(height) && lastBlock == CleanMarker(height)
    {
      if height <= PRE_GENESIS_HEIGHT + 1 {
        store.Drop(height);
        SetLastBlockUnchecked(NIL_HEIGHT);
      } else {
        store.DeleteMany(height);
        SetLastBlockUnchecked(height - 1);
      }
    }

    method CleanByHeight(height: int) returns (ok: bool)
      requires store.Valid()
      modifies this, store
      ensures ok <==> !readonly
      ensures store.Valid() && store.calls == old(store.calls) + if ok then CleanCalls(height) else []
      ensures lastBlock == if ok then CleanMarker(height) else old(lastBlock)
    {
      assert store.calls == old(store.calls) + [];
      if readonly { return false; }
      Clean(height);
      return true;
    }

    /** Initialize: a readonly database takes the marker and cleans nothing. */
    method Init()
      requires store.Valid()
      modifies this, store
      ensures store.Valid()
      ensures !readonly ==> Abs() == Initialize(old(store.Abs()))
      ensures readonly ==> Abs() == Db(old(store.Abs()), old(store.marker).GetOr(NIL_HEIGHT))
    {
      match store.marker
      case None =>
        lastBlock := NIL_HEIGHT;
      case Some(h) =>
        lastBlock := h;
        if !readonly {
          ApplyConcat(store.initial, store.calls, CleanCalls(h + 1));
          Clean(h + 1);
        }
    }
  }

  // ---------------------------------------------------------------- one block

  class BlockSession {
    const st: Database
    const block: BlockData
    var operationModels: seq<Doc>
    var accountModels: seq<Doc>
    var balanceModels: seq<Doc>

    constructor (st: Database, block: BlockData)
      ensures this.st == st && this.block == block
      ensures operationModels == accountModels == balanceModels == []
    {
      this.st, this.block := st, block;
      operationModels, accountModels, balanceModels := [], [], [];
    }

    method Prepare() returns (ok: bool)
      modifies this
      ensures ok <==> Prepared(block)
      ensures ok ==>
                && operationModels == OperationDocs(block)
                && accountModels == AccountDocs(block.states) && balanceModels == BalanceDocs(block.states)
    {
      var ops := PrepareOperations(block);
      if ops.None? { return false; }
      operationModels := ops.value;
      var sts := PrepareAccounts(block);
      if sts.None? { return false; }
      accountModels, balanceModels := sts.value.0, sts.value.1;
      return true;
    }

    /** Chunk by chunk, every model once. */
    method WriteModels(models: seq<Doc>)
      requires st.store.Valid()
      modifies st.store
      ensures st.store.Valid() && st.store.calls == old(st.store.calls) + WriteCalls(models)
    {
      var n := |models|;
      if n < 1 {
        assert st.store.calls == old(st.store.calls) + [];
        return;
      } else if n <= BULK_WRITE_LIMIT {
        st.store.BulkWrite(models);
        return;
      }
      var z := n / BULK_WRITE_LIMIT;
      if n % BULK_WRITE_LIMIT != 0 { z := z + 1; }
      assert models[0..] == models;
      for i := 0 to z
        invariant st.store.Valid()
        invariant i < z ==> i * BULK_WRITE_LIMIT < n
        invariant i == z ==> i * BULK_WRITE_LIMIT >= n
        invariant st.store.calls + WriteCalls(models[Min(i * BULK_WRITE_LIMIT, n)..]) == old(st.store.calls) + WriteCalls(models)
      {
        var s := i * BULK_WRITE_LIMIT;
        var e := s + BULK_WRITE_LIMIT;
        if e > n { e := n; }
        FirstChunk(models, s, e);
        st.store.BulkWrite(models[s..e]);
      }
    }

    method Commit()
      requires st.store.Valid() && !st.readonly
      modifies st, st.store
      ensures st.store.Valid()
      ensures st.store.calls == old(st.store.calls) + CleanCalls(block.height) +
                                WriteCalls(operationModels) + WriteCalls(accountModels) + WriteCalls(balanceModels)
    {
      var ok := st.CleanByHeight(block.height);
      WriteModels(operationModels);
      WriteModels(accountModels);
      WriteModels(balanceModels);
    }
  }

  lemma FirstChunk(models: seq<Doc>, s: nat, e: nat)
    requires s < |models| && e == Min(s + BULK_WRITE_LIMIT, |models|)
    ensures WriteCalls(models[s..]) == [Insert(models[s..e])] + WriteCalls(models[e..])
  {
    var rest := models[s..];
    if |rest| > BULK_WRITE_LIMIT {
      assert rest[..BULK_WRITE_LIMIT] == models[s..e] && rest[BULK_WRITE_LIMIT..] == models[e..];
    } else {
      assert rest == models[s..e] && models[e..] == [];
    }
  }

  /** DigestBlock: a session on a database object of its own, then the last block of the caller's. */
  method DigestBlock(st: Database, blk: BlockData) returns (ok: bool)
    requires st.store.Valid()
    modifies st, st.store
    ensures st.store.Valid()
    ensures ok <==> !st.readonly && Prepared(blk)
    ensures ok ==> st.Abs() == Digest(old(st.Abs()), blk)
    ensures ok ==> st.store.calls == old(st.store.calls) + DigestCalls(blk, old(st.lastBlock))
    ensures !ok ==> st.Abs() == old(st.Abs()) && st.store.calls == old(st.store.calls)
  {
    hide InTree, AllDigestible, OperationDocs, AccountDocs, BalanceDocs, WriteCalls, CleanCalls, ApplyAll;
    hide DigestCalls;
    if st.readonly { return false; }
    ghost var calls, lastBlock := st.store.calls, st.lastBlock;
    var nst := new Database(st.store, false);
    var bs := new BlockSession(nst, blk);
    ok := bs.Prepare();
    if !ok { return false; }
    ApplyConcat(st.store.initial, calls, DigestCalls(blk, lastBlock));
    CallsSplit(calls, blk, lastBlock);
    bs.Commit();
    ok := st.SetLastBlock(blk.height);
  }

  lemma CallsSplit(calls: seq<Call>, blk: BlockData, lastBlock: int)
    requires Prepared(blk)
    ensures calls + DigestCalls(blk, lastBlock) ==
            calls + CleanCalls(blk.height) + WriteCalls(OperationDocs(blk)) + WriteCalls(AccountDocs(blk.states)) +
            WriteCalls(BalanceDocs(blk.states)) + if blk.height <= lastBlock then [] else [SetMarker(blk.height)]
  {
    hide InTree, AllDigestible, OperationDocs, AccountDocs, BalanceDocs, WriteCalls, CleanCalls;
  }

  lemma {:induction false} FollowAppend(bs: Blocks, db: Db, start: int, i: int)
    requires Loadable(bs, start, i) && start <= i
    ensures Loadable(bs, start, i - 1)
    ensures FollowFrom(bs, db, start, i) == Digest(FollowFrom(bs, db, start, i - 1), bs.At(i))
    decreases i - start
  {
    hide Blocks.Has, InTree, AllDigestible, Digest;
    assert bs.Has(start) && bs.Has(i);
    var next := Digest(db, bs.At(start));
    if start < i {
      FollowAppend(bs, next, start + 1, i);
    } else {
      assert FollowFrom(bs, db, i, i) == FollowFrom(bs, next, i + 1, i);
    }
  }

  lemma NothingToLoad(bs: Blocks, i: int)
    ensures Loadable(bs, i, i - 1)
  {}

  lemma OneMoreLoadable(bs: Blocks, start: int, i: int)
    requires Loadable(bs, start, i - 1) && bs.Has(i) && Prepared(bs.At(i))
    ensures Loadable(bs, start, i)
  {}

  lemma NotLoadable(bs: Blocks, start: int, i: int, height: int)
    requires start <= i <= height && (!bs.Has(i) || !Prepared(bs.At(i)))
    ensures !Loadable(bs, start, height)
  {}

  /** Block n is the first that could not be digested; everything before it was. */
  ghost predicate StoppedAt(bs: Blocks, before: Db, after: Db, n: int, height: int, readonly: bool) {
    var start := FollowStart(before.lastBlock);
    && start <= n <= height && Loadable(bs, start, n - 1)
    && (readonly || !bs.Has(n) || !Prepared(bs.At(n)))
    && after == FollowFrom(bs, before, start, n - 1)
  }

  /**
    digestFollowup.  It stops at the first block that cannot be loaded or digested, with everything
    before it digested; a readonly database stops it at once.
  */
  method DigestFollowup(st: Database, bs: Blocks, height: int) returns (ok: bool)
    requires st.store.Valid() && st.lastBlock >= NIL_HEIGHT
    modifies st, st.store
    ensures st.store.Valid()
    ensures ok <==> height <= old(st.lastBlock) || (!st.readonly && Loadable(bs, FollowStart(old(st.lastBlock)), height))
    ensures ok ==> st.Abs() == FollowUp(bs, old(st.Abs()), height)
    ensures !ok ==> exists n :: StoppedAt(bs, old(st.Abs()), st.Abs(), n, height, st.readonly)
  {
    ghost var before := st.Abs();
    hide InTree, AllDigestible, Digest, Loadable, Prepared;
    if height <= st.lastBlock { return true; }
    var lastBlock := st.lastBlock;
    if lastBlock < PRE_GENESIS_HEIGHT { lastBlock := PRE_GENESIS_HEIGHT; }
    var i := lastBlock;
    NothingToLoad(bs, i);
    while i <= height
      invariant lastBlock <= i <= height + 1 && st.store.Valid()
      invariant Loadable(bs, lastBlock, i - 1) && (i > lastBlock ==> !st.readonly)
      invariant st.Abs() == FollowFrom(bs, before, lastBlock, i - 1)
    {
      if !bs.Has(i) {
        NotLoadable(bs, lastBlock, i, height);
        assert StoppedAt(bs, before, st.Abs(), i, height, st.readonly);
        return false;
      }
      var digested := DigestBlock(st, bs.At(i));
      if !digested {
        if !st.readonly { NotLoadable(bs, lastBlock, i, height); }
        assert StoppedAt(bs, before, st.Abs(), i, height, st.readonly);
        return false;
      }
      OneMoreLoadable(bs, lastBlock, i);
      FollowAppend(bs, before, lastBlock, i);
      i := i + 1;
    }
    return true;
  }

  // ---------------------------------------------------------------- blocks in any order

  ghost predicate ByHeight(blks: seq<BlockData>) {
    forall i, j :: 0 <= i < j < |blks| ==> blks[i].height <= blks[j].height
  }

  /** The first n blocks are in place. */
  ghost predicate Placed(blks: seq<BlockData>, n: nat) {
    forall i, j :: 0 <= i < j < |blks| && i < n ==> blks[i].height <= blks[j].height
  }

  lemma PlaceNext(s: seq<BlockData>, t: seq<BlockData>, n: nat, least: nat)
    requires Placed(s, n) && n <= least < |s| && t == s[n := s[least]][least := s[n]]
    requires forall j :: n <= j < |s| ==> s[least].height <= s[j].height
    ensures Placed(t, n + 1) && multiset(t) == multiset(s)
  {
    assert forall j :: n <= j < |s| ==> exists i :: n <= i < |s| && t[j] == s[i];
  }

  /**
    Digest: saved blocks arrive in any order and are handed over by ascending height.  Stands for
    sort.Slice, of which only the order and the elements of the result are used.
  */
  method SortBlocks(a: array<BlockData>)
    modifies a
    ensures ByHeight(a[..]) && multiset(a[..]) == old(multiset(a[..]))
  {
    var n := 0;
    while n < a.Length
      invariant 0 <= n <= a.Length && Placed(a[..], n)
      invariant multiset(a[..]) == old(multiset(a[..]))
    {
      var least := n;
      ghost var before := a[..];
      for m := n + 1 to a.Length
        invariant n <= least < a.Length && a[..] == before
        invariant forall j :: n <= j < m ==> before[least].height <= before[j].height
      {
        if a[m].height < a[least].height { least := m; }
      }
      a[n], a[least] := a[least], a[n];
      PlaceNext(before, a[..], n, least);
      n := n + 1;
    }
  }

  ghost function DigestAll(db: Db, blks: seq<BlockData>): Db
    requires forall blk :: blk in blks ==> Prepared(blk)
  {
    if blks == [] then db else Digest(DigestAll(db, blks[..|blks| - 1]), blks[|blks| - 1])
  }

  /**
    The digester takes the blocks one by one.  A block that cannot be digested is tried again for
    ever, so it stays at the first such block: n counts the blocks before it.
  */
  method DigestBlocks(st: Database, blks: array<BlockData>) returns (n: nat)
    requires st.store.Valid()
    modifies st, st.store, blks
    ensures st.store.Valid()
    ensures ByHeight(blks[..]) && multiset(blks[..]) == old(multiset(blks[..]))
    ensures n <= blks.Length && (forall blk :: blk in blks[..n] ==> Prepared(blk))
    ensures n < blks.Length ==> st.readonly || !Prepared(blks[n])
    ensures st.Abs() == DigestAll(old(st.Abs()), blks[..n])
  {
    hide InTree, AllDigestible, Digest;
    SortBlocks(blks);
    ghost var sorted := blks[..];
    for i := 0 to blks.Length
      invariant st.store.Valid() && blks[..] == sorted
      invariant forall blk :: blk in sorted[..i] ==> Prepared(blk)
      invariant st.Abs() == DigestAll(old(st.Abs()), sorted[..i])
    {
      assert sorted[..i + 1] == sorted[..i] + [sorted[i]];
      assert blks[..i] == sorted[..i];
      var ok := DigestBlock(st, blks[i]);
      if !ok { return i; }
    }
    assert sorted[..blks.Length] == sorted && blks[..blks.Length] == sorted;
    return blks.Length;
  }

  ghost predicate Ascending(blks: seq<BlockData>) {
    forall i, j :: 0 <= i < j < |blks| ==> blks[i].height < blks[j].height
  }

  lemma FrontMultiset(s: seq<BlockData>)
    requires s != []
    ensures multiset(s[..|s| - 1]) == multiset(s) - multiset{s[|s| - 1]}
  {
    assert s == s[..|s| - 1] + [s[|s| - 1]];
  }

  lemma HighestLast(s: seq<BlockData>, blk: BlockData)
    requires ByHeight(s) && blk in multiset(s)
    ensures s != [] && blk.height <= s[|s| - 1].height
  {
    var i :| 0 <= i < |s| && s[i] == blk;
  }

  lemma SameLast(xs: seq<BlockData>, ys: seq<BlockData>)
    requires ByHeight(ys) && multiset(xs) == multiset(ys) && Ascending(xs) && xs != []
    ensures ys != [] && xs[|xs| - 1] == ys[|ys| - 1]
  {
    var x := xs[|xs| - 1];
    assert x in multiset(xs);
    HighestLast(ys, x);
    var y := ys[|ys| - 1];
    assert y in multiset(ys);
    var j :| 0 <= j < |xs| && xs[j] == y;
  }

  lemma {:induction false} OneOrder(xs: seq<BlockData>, ys: seq<BlockData>)
    requires ByHeight(ys) && multiset(xs) == multiset(ys) && Ascending(xs)
    ensures xs == ys
  {
    if xs == [] {
      assert |multiset(ys)| == 0;
    } else {
      SameLast(xs, ys);
      FrontMultiset(xs);
      FrontMultiset(ys);
      OneOrder(xs[..|xs| - 1], ys[..|ys| - 1]);
    }
  }

  lemma {:induction false} DigestAllExact(bs: Blocks, db: Db, i: nat, n: nat)
    requires bs.WellFormed() && i + n <= |bs.main| && (i < |bs.main| ==> Ready(bs, db.contents, i))
    requires forall blk :: blk in bs.main[i..i + n] ==> Prepared(blk)
    ensures n > 0 ==> DigestAll(db, bs.main[i..i + n]).contents.docs == bs.UpTo(i + n - 1)
  {
    hide InTree, AllDigestible, StatesAtHeight, DocsOf, DigestCalls, Below, ApplyAll;
    if n > 0 {
      var last := i + n - 1;
      var blks := bs.main[i..i + n];
      assert blks[..n - 1] == bs.main[i..last] && blks[n - 1] == bs.At(last);
      DigestAllExact(bs, db, i, n - 1);
      var before := DigestAll(db, blks[..n - 1]);
      if n > 1 {
        UpToBelow(bs, last - 1, last);
      } else {
        assert blks[..0] == [];
      }
      DigestExact(bs, before.contents, last, before.lastBlock);
    }
  }

  /** Consecutive blocks that arrive together are indexed exactly, in whatever order they arrive. */
  lemma ArrivalOrderFree(bs: Blocks, db: Db, i: nat, n: nat, blks: seq<BlockData>)
    requires bs.WellFormed() && n > 0 && i + n <= |bs.main| && Ready(bs, db.contents, i)
    requires ByHeight(blks) && multiset(blks) == multiset(bs.main[i..i + n])
    requires forall blk :: blk in blks ==> Prepared(blk)
    ensures DigestAll(db, blks).contents.docs == bs.UpTo(i + n - 1)
  {
    hide InTree, AllDigestible, StatesAtHeight, DocsOf, Below, DigestAll, Blocks.UpTo;
    var xs := bs.main[i..i + n];
    assert forall k :: 0 <= k < n ==> xs[k] == bs.At(i + k);
    OneOrder(xs, blks);
    DigestAllExact(bs, db, i, n);
  }
}
