/**
  The digest index as the sequence of database calls that build it: re-digesting, rolling back, and
  coming back after a crash between any two calls.
*/
module DigestStore {
  import opened Prelude
  import opened DigestDocs

  const NIL_HEIGHT: int := -2
  const PRE_GENESIS_HEIGHT: int := -1
  const BULK_WRITE_LIMIT: nat := 500

  /** The collections, and the height stored as the last digested block. */
  datatype Contents = Contents(docs: multiset<Doc>, marker: Option<int>)

  datatype Call = DeleteFrom(height: int) | SetMarker(height: int) | Insert(docs: seq<Doc>)

  // ---------------------------------------------------------------- parts of the collections

  ghost function Below(m: multiset<Doc>, h: int): multiset<Doc>
    decreases |m|
  {
    if m == multiset{} then multiset{}
    else
      var d :| d in m;
      Below(m - multiset{d}, h) + if d.Height() < h then multiset{d} else multiset{}
  }

  lemma {:induction false} BelowCount(m: multiset<Doc>, h: int, d: Doc)
    ensures Below(m, h)[d] == if d.Height() < h then m[d] else 0
    decreases |m|
  {
    if m != multiset{} {
      var e :| e in m && Below(m, h) == Below(m - multiset{e}, h) + if e.Height() < h then multiset{e} else multiset{};
      BelowCount(m - multiset{e}, h, d);
    }
  }

  /** Two collections with the same count of every document are the same. */
  lemma SameDocs(m: multiset<Doc>, n: multiset<Doc>)
    requires forall d: Doc :: m[d] == n[d]
    ensures m == n
  {}

  lemma BelowBelow(m: multiset<Doc>, g: int, h: int)
    ensures Below(Below(m, g), h) == Below(m, if g < h then g else h)
  {
    forall d: Doc ensures Below(Below(m, g), h)[d] == Below(m, if g < h then g else h)[d] {
      BelowCount(Below(m, g), h, d);
      BelowCount(m, g, d);
      BelowCount(m, if g < h then g else h, d);
    }
    SameDocs(Below(Below(m, g), h), Below(m, if g < h then g else h));
  }

  lemma BelowSum(m: multiset<Doc>, n: multiset<Doc>, h: int)
    ensures Below(m + n, h) == Below(m, h) + Below(n, h)
  {
    forall d: Doc ensures Below(m + n, h)[d] == (Below(m, h) + Below(n, h))[d] {
      BelowCount(m + n, h, d);
      BelowCount(m, h, d);
      BelowCount(n, h, d);
    }
    SameDocs(Below(m + n, h), Below(m, h) + Below(n, h));
  }

  lemma BelowAll(m: multiset<Doc>, h: int)
    requires forall d: Doc :: d in m ==> d.Height() < h
    ensures Below(m, h) == m
  {}

  lemma BelowNone(m: multiset<Doc>, h: int)
    requires forall d: Doc :: d in m ==> d.Height() >= h
    ensures Below(m, h) == multiset{}
  {}

  // ---------------------------------------------------------------- the chain that is digested

  /** The blocks of the node: one before genesis, then height 0 and up. */
  datatype Blocks = Blocks(pre: BlockData, main: seq<BlockData>) {
    predicate Has(h: int) {
      PRE_GENESIS_HEIGHT <= h < |main|
    }

    function At(h: int): BlockData
      requires Has(h)
    {
      if h == PRE_GENESIS_HEIGHT then pre else main[h]
    }

    ghost predicate WellFormed() {
      forall h :: Has(h) ==> At(h).height == h && Prepared(At(h)) && StatesAtHeight(At(h))
    }

    /** All documents of blocks 0 to h. */
    ghost function UpTo(h: int): multiset<Doc>
      requires WellFormed() && h < |main|
      decreases h + 1
    {
      if h < 0 then multiset{} else UpTo(h - 1) + multiset(DocsOf(At(h)))
    }
  }

  lemma BlockDocsHeight(bs: Blocks, h: int, d: Doc)
    requires bs.WellFormed() && bs.Has(h) && d in multiset(DocsOf(bs.At(h)))
    ensures d.Height() == h
  {
    assert d in DocsOf(bs.At(h));
    DocsAtHeight(bs.At(h), d);
  }

  lemma {:induction false} UpToHeights(bs: Blocks, h: int, d: Doc)
    requires bs.WellFormed() && h < |bs.main| && d in bs.UpTo(h)
    ensures 0 <= d.Height() <= h
    decreases h + 1
  {
    hide Prepared, StatesAtHeight, DocsOf, Doc.Height;
    if d in bs.UpTo(h - 1) {
      UpToHeights(bs, h - 1, d);
    } else {
      BlockDocsHeight(bs, h, d);
    }
  }

  lemma {:induction false} UpToMembers(bs: Blocks, h: int, d: Doc)
    requires bs.WellFormed() && h < |bs.main|
    ensures d in bs.UpTo(h) <==> exists i :: 0 <= i <= h && d in DocsOf(bs.At(i))
    decreases h + 1
  {
    hide InTree, AllDigestible, StatesAtHeight, DocsOf;
    if h >= 0 { UpToMembers(bs, h - 1, d); }
  }

  lemma {:induction false} UpToBelow(bs: Blocks, n: int, k: int)
    requires bs.WellFormed() && n < |bs.main| && 0 <= k <= n + 1
    ensures Below(bs.UpTo(n), k) == bs.UpTo(k - 1)
    decreases n
  {
    hide Prepared, StatesAtHeight, DocsOf, Doc.Height;
    if k == n + 1 {
      forall d | d in bs.UpTo(n) ensures d.Height() < k { UpToHeights(bs, n, d); }
      BelowAll(bs.UpTo(n), k);
    } else {
      var last := multiset(DocsOf(bs.At(n)));
      UpToBelow(bs, n - 1, k);
      BelowSum(bs.UpTo(n - 1), last, k);
      forall d | d in last ensures d.Height() >= k { BlockDocsHeight(bs, n, d); }
      BelowNone(last, k);
    }
  }

  // ---------------------------------------------------------------- database calls

  /** Cleaning from height 0 and below drops the collections altogether. */
  ghost function Apply(s: Contents, c: Call): Contents {
    match c
    case DeleteFrom(h) => s.(docs := if h <= PRE_GENESIS_HEIGHT + 1 then multiset{} else Below(s.docs, h))
    case SetMarker(h) => s.(marker := Some(h))
    case Insert(ds) => s.(docs := s.docs + multiset(ds))
  }

  ghost function ApplyAll(s: Contents, cs: seq<Call>): Contents {
    if cs == [] then s else Apply(ApplyAll(s, cs[..|cs| - 1]), cs[|cs| - 1])
  }

  lemma {:induction false} ApplyConcat(s: Contents, cs: seq<Call>, ds: seq<Call>)
    ensures ApplyAll(s, cs + ds) == ApplyAll(ApplyAll(s, cs), ds)
  {
    hide Apply;
    if ds == [] {
      assert cs + ds == cs;
    } else {
      ApplyConcat(s, cs, ds[..|ds| - 1]);
      assert (cs + ds)[..|cs + ds| - 1] == cs + ds[..|ds| - 1];
    }
  }

  /** cleanByHeight */
  function CleanCalls(h: int): seq<Call> {
    [DeleteFrom(h), SetMarker(if h <= PRE_GENESIS_HEIGHT + 1 then NIL_HEIGHT else h - 1)]
  }

  /** writeModels: chunks of at most 500, each its own call. */
  function WriteCalls(models: seq<Doc>): seq<Call> {
    if models == [] then []
    else if |models| <= BULK_WRITE_LIMIT then [Insert(models)]
    else [Insert(models[..BULK_WRITE_LIMIT])] + WriteCalls(models[BULK_WRITE_LIMIT..])
  }

  function InsertCalls(blk: BlockData): seq<Call>
    requires Prepared(blk)
  {
    WriteCalls(OperationDocs(blk)) + WriteCalls(AccountDocs(blk.states)) + WriteCalls(BalanceDocs(blk.states))
  }

  /** DigestBlock on a database whose last block in memory is lastBlock. */
  function DigestCalls(blk: BlockData, lastBlock: int): seq<Call>
    requires Prepared(blk)
  {
    CleanCalls(blk.height) + InsertCalls(blk) + if blk.height <= lastBlock then [] else [SetMarker(blk.height)]
  }

  /** What a list of insertions adds. */
  ghost function Inserted(cs: seq<Call>): multiset<Doc> {
    if cs == [] then multiset{}
    else Inserted(cs[..|cs| - 1]) + if cs[|cs| - 1].Insert? then multiset(cs[|cs| - 1].docs) else multiset{}
  }

  ghost predicate OnlyInserts(cs: seq<Call>) {
    forall c :: c in cs ==> c.Insert?
  }

  lemma {:induction false} ApplyInserts(s: Contents, cs: seq<Call>)
    requires OnlyInserts(cs)
    ensures ApplyAll(s, cs) == s.(docs := s.docs + Inserted(cs))
  {
    if cs != [] {
      assert cs == cs[..|cs| - 1] + [cs[|cs| - 1]];
      ApplyInserts(s, cs[..|cs| - 1]);
    }
  }

  lemma {:induction false} InsertedConcat(cs: seq<Call>, ds: seq<Call>)
    ensures Inserted(cs + ds) == Inserted(cs) + Inserted(ds)
  {
    if ds == [] {
      assert cs + ds == cs;
    } else {
      var front, last := ds[..|ds| - 1], ds[|ds| - 1];
      InsertedConcat(cs, front);
      assert (cs + ds)[..|cs + ds| - 1] == cs + front;
      var added := if last.Insert? then multiset(last.docs) else multiset{};
      assert Inserted(cs + ds) == Inserted(cs) + Inserted(front) + added;
    }
  }

  /** However many chunks, every model is inserted once. */
  lemma {:induction false} WriteCallsInsert(models: seq<Doc>)
    ensures OnlyInserts(WriteCalls(models)) && Inserted(WriteCalls(models)) == multiset(models)
  {
    if models == [] {
    } else if |models| <= BULK_WRITE_LIMIT {
      assert [Insert(models)][..0] == [];
    } else {
      var head, tail := models[..BULK_WRITE_LIMIT], models[BULK_WRITE_LIMIT..];
      WriteCallsInsert(tail);
      InsertedConcat([Insert(head)], WriteCalls(tail));
      assert [Insert(head)][..0] == [];
      assert models == head + tail;
    }
  }

  lemma BlockInserts(blk: BlockData)
    requires Prepared(blk)
    ensures OnlyInserts(InsertCalls(blk)) && Inserted(InsertCalls(blk)) == multiset(DocsOf(blk))
  {
    hide InTree, AllDigestible, OperationDocs, AccountDocs, BalanceDocs, WriteCalls, Inserted;
    var a, b, c := OperationDocs(blk), AccountDocs(blk.states), BalanceDocs(blk.states);
    WriteCallsInsert(a);
    WriteCallsInsert(b);
    WriteCallsInsert(c);
    InsertedConcat(WriteCalls(a), WriteCalls(b));
    InsertedConcat(WriteCalls(a) + WriteCalls(b), WriteCalls(c));
  }

  // ---------------------------------------------------------------- one block

  /** What cleaning by height leaves. */
  ghost function Retained(s: Contents, h: int): multiset<Doc> {
    if h <= PRE_GENESIS_HEIGHT + 1 then multiset{} else Below(s.docs, h)
  }

  function CleanMarker(h: int): int {
    if h <= PRE_GENESIS_HEIGHT + 1 then NIL_HEIGHT else h - 1
  }

  lemma ApplyOne(s: Contents, c: Call)
    ensures ApplyAll(s, [c]) == Apply(s, c)
  {
    assert [c][..0] == [];
  }

  lemma CleanResult(s: Contents, h: int)
    ensures ApplyAll(s, CleanCalls(h)) == Contents(Retained(s, h), Some(CleanMarker(h)))
  {
    var cs := CleanCalls(h);
    assert cs == [cs[0]] + [cs[1]];
    ApplyConcat(s, [cs[0]], [cs[1]]);
    ApplyOne(s, cs[0]);
    ApplyOne(Apply(s, cs[0]), cs[1]);
  }

  /** After a block: what was below it, its documents, and a marker that lags when the block is not new. */
  lemma DigestResult(s: Contents, blk: BlockData, lastBlock: int)
    requires Prepared(blk)
    ensures ApplyAll(s, DigestCalls(blk, lastBlock)) ==
            Contents(Retained(s, blk.height) + multiset(DocsOf(blk)),
                     Some(if blk.height <= lastBlock then CleanMarker(blk.height) else blk.height))
  {
    BlockInserts(blk);
    hide InTree, AllDigestible, OnlyInserts, InsertCalls, Retained, CleanCalls, DocsOf;
    var h := blk.height;
    var cleaned := ApplyAll(s, CleanCalls(h));
    CleanResult(s, h);
    ApplyConcat(s, CleanCalls(h), InsertCalls(blk));
    ApplyInserts(cleaned, InsertCalls(blk));
    if h > lastBlock {
      ApplyConcat(s, CleanCalls(h) + InsertCalls(blk), [SetMarker(h)]);
      ApplyOne(ApplyAll(s, CleanCalls(h) + InsertCalls(blk)), SetMarker(h));
    } else {
      assert CleanCalls(h) + InsertCalls(blk) + [] == CleanCalls(h) + InsertCalls(blk);
    }
  }

  /** Everything below h is in place. */
  ghost predicate Ready(bs: Blocks, s: Contents, h: int)
    requires bs.WellFormed() && bs.Has(h)
  {
    h >= 1 ==> Below(s.docs, h) == bs.UpTo(h - 1)
  }

  /** Whatever the index held at h and above, digesting block h leaves blocks 0 to h exactly once. */
  lemma DigestExact(bs: Blocks, s: Contents, h: nat, lastBlock: int)
    requires bs.WellFormed() && bs.Has(h) && Ready(bs, s, h)
    ensures ApplyAll(s, DigestCalls(bs.At(h), lastBlock)).docs == bs.UpTo(h)
  {
    DigestResult(s, bs.At(h), lastBlock);
  }

  // ---------------------------------------------------------------- crashes

  /** A restarted node can trust the marker: up to it the index is complete and exact. */
  ghost predicate Sound(bs: Blocks, s: Contents)
    requires bs.WellFormed()
  {
    s.marker.Some? && s.marker.value >= 0 ==>
      s.marker.value < |bs.main| && Below(s.docs, s.marker.value + 1) == bs.UpTo(s.marker.value)
  }

  lemma InsertedPart(cs: seq<Call>, n: nat)
    requires n <= |cs|
    ensures Inserted(cs[..n]) <= Inserted(cs)
  {
    InsertedConcat(cs[..n], cs[n..]);
    assert cs == cs[..n] + cs[n..];
  }

  lemma HigherDocs(m: multiset<Doc>, more: multiset<Doc>, h: int)
    requires forall d: Doc :: d in more ==> d.Height() >= h
    ensures Below(Below(m, h) + more, h) == Below(m, h)
  {
    hide Below, Doc.Height;
    BelowSum(Below(m, h), more, h);
    BelowBelow(m, h, h);
    BelowNone(more, h);
  }

  lemma PartHeights(bs: Blocks, h: int, n: nat)
    requires bs.WellFormed() && bs.Has(h) && n <= |InsertCalls(bs.At(h))|
    ensures forall d :: d in Inserted(InsertCalls(bs.At(h))[..n]) ==> d.Height() == h
  {
    var cs := InsertCalls(bs.At(h));
    BlockInserts(bs.At(h));
    InsertedPart(cs, n);
    hide InsertCalls, Inserted, DocsOf, Doc.Height, InTree, AllDigestible, StatesAtHeight;
    forall d | d in Inserted(cs[..n]) ensures d.Height() == h { BlockDocsHeight(bs, h, d); }
  }

  lemma PartResult(s: Contents, blk: BlockData, n: nat)
    requires Prepared(blk) && n <= |InsertCalls(blk)|
    ensures ApplyAll(s, CleanCalls(blk.height) + InsertCalls(blk)[..n]) ==
            Contents(Retained(s, blk.height) + Inserted(InsertCalls(blk)[..n]), Some(CleanMarker(blk.height)))
  {
    BlockInserts(blk);
    hide InTree, AllDigestible, InsertCalls, CleanCalls, Retained, Inserted, DocsOf;
    CleanResult(s, blk.height);
    ApplyConcat(s, CleanCalls(blk.height), InsertCalls(blk)[..n]);
    ApplyInserts(ApplyAll(s, CleanCalls(blk.height)), InsertCalls(blk)[..n]);
  }

  lemma CleanedSound(bs: Blocks, s: Contents, h: int, more: multiset<Doc>)
    requires bs.WellFormed() && bs.Has(h) && Ready(bs, s, h)
    requires forall d: Doc :: d in more ==> d.Height() == h
    ensures Sound(bs, Contents(Retained(s, h) + more, Some(CleanMarker(h))))
  {
    HigherDocs(s.docs, more, h);
  }

  /** After the cleaning, any number of the insertions leaves the index sound. */
  lemma PartlyWrittenSound(bs: Blocks, s: Contents, h: int, n: nat)
    requires bs.WellFormed() && bs.Has(h) && Ready(bs, s, h) && n <= |InsertCalls(bs.At(h))|
    ensures Sound(bs, ApplyAll(s, CleanCalls(h) + InsertCalls(bs.At(h))[..n]))
  {
    PartHeights(bs, h, n);
    PartResult(s, bs.At(h), n);
    CleanedSound(bs, s, h, Inserted(InsertCalls(bs.At(h))[..n]));
  }

  lemma WholeBlockSound(bs: Blocks, s: Contents, h: int, lastBlock: int)
    requires bs.WellFormed() && bs.Has(h) && Ready(bs, s, h)
    ensures Sound(bs, ApplyAll(s, DigestCalls(bs.At(h), lastBlock)))
  {
    hide Below, DocsOf, InTree, AllDigestible, StatesAtHeight, DigestCalls;
    DigestResult(s, bs.At(h), lastBlock);
    if h >= 0 {
      DigestExact(bs, s, h, lastBlock);
      UpToBelow(bs, h, h + 1);
      UpToBelow(bs, h, h);
    }
  }

  /** Between deleting and lowering the marker, a crash is harmless unless indexed documents were deleted. */
  lemma HalfCleaned(bs: Blocks, s: Contents, h: int)
    requires bs.WellFormed() && bs.Has(h) && Ready(bs, s, h) && Sound(bs, s)
    ensures Sound(bs, Apply(s, DeleteFrom(h))) <==>
              (s.marker.Some? && h <= s.marker.value && s.marker.value >= 0 ==>
                bs.UpTo(s.marker.value) == bs.UpTo(if h <= 0 then PRE_GENESIS_HEIGHT else h - 1))
  {
    hide Below, DocsOf, InTree, AllDigestible, StatesAtHeight;
    if s.marker.Some? && s.marker.value >= 0 {
      var m := s.marker.value;
      BelowBelow(s.docs, h, m + 1);
      if h <= 0 { BelowNone(multiset{}, m + 1); }
    }
  }

  /**
    Digesting a block can break off after any of its calls.  The index stays sound, except that a
    re-digested block may not stop between the deletion and the new marker.
  */
  lemma CrashSafe(bs: Blocks, s: Contents, h: int, lastBlock: int, n: nat)
    requires bs.WellFormed() && bs.Has(h) && Ready(bs, s, h) && Sound(bs, s)
    requires n <= |DigestCalls(bs.At(h), lastBlock)|
    ensures Sound(bs, ApplyAll(s, DigestCalls(bs.At(h), lastBlock)[..n])) <==>
              (n == 1 && s.marker.Some? && h <= s.marker.value && s.marker.value >= 0 ==>
                bs.UpTo(s.marker.value) == bs.UpTo(if h <= 0 then PRE_GENESIS_HEIGHT else h - 1))
  {
    var blk := bs.At(h);
    var cs, ins := DigestCalls(blk, lastBlock), InsertCalls(blk);
    hide Below, DocsOf, InTree, AllDigestible, StatesAtHeight, InsertCalls, Sound, Ready;
    if n == 0 {
      assert cs[..0] == [];
    } else if n == 1 {
      assert cs[..1] == [DeleteFrom(h)];
      ApplyOne(s, DeleteFrom(h));
      HalfCleaned(bs, s, h);
    } else if n <= 2 + |ins| {
      assert cs[..n] == CleanCalls(h) + ins[..n - 2];
      PartlyWrittenSound(bs, s, h, n - 2);
    } else {
      assert cs[..n] == cs;
      WholeBlockSound(bs, s, h, lastBlock);
    }
  }
}
