/** Listing what was digested: following the pages shows every operation of every block once. */
module OperationIndex {
  import opened Feeers
  import opened StateKeys
  import opened Offsets
  import opened OperationPages
  import opened DigestDocs
  import opened DigestStore

  ghost function OperationsIn(docs: multiset<Doc>): set<OperationDoc> {
    set d | d in docs && d.OperationEntry? :: d.op
  }

  /** Heights and indices fit into the offsets. */
  ghost predicate Bounded(bs: Blocks) {
    |bs.main| <= INT64_MAX && forall h :: 0 <= h < |bs.main| ==> |bs.main[h].operations| <= UINT64_MAX
  }

  /** The document of operation j of block i. */
  ghost function DocAt(bs: Blocks, i: nat, j: nat): OperationDoc
    requires bs.WellFormed() && i < |bs.main| && j < |bs.main[i].operations|
  {
    assert bs.Has(i) && bs.At(i) == bs.main[i];
    OperationDocs(bs.main[i])[j].op
  }

  lemma OperationInBlock(blk: BlockData, d: Doc)
    requires Prepared(blk) && d.OperationEntry? && d in DocsOf(blk)
    ensures exists j :: 0 <= j < |blk.operations| && OperationDocs(blk)[j] == d
  {
    hide Digestible, DocOfState, Prefixes;
    StateDocMembers(blk.states, d);
    assert d in OperationDocs(blk);
  }

  lemma DocAtMeaning(bs: Blocks, i: nat, j: nat)
    requires bs.WellFormed() && i < |bs.main| && j < |bs.main[i].operations|
    ensures DocAt(bs, i, j).At() == Offset(i, j) && DocAt(bs, i, j).fact == bs.main[i].operations[j].fact
    ensures OperationEntry(DocAt(bs, i, j)) in DocsOf(bs.At(i))
  {
    hide Digestible, Prefixes;
    assert bs.Has(i) && bs.At(i) == bs.main[i];
    assert OperationDocs(bs.main[i])[j] in OperationDocs(bs.main[i]);
  }

  /** d is the document of an operation of blocks 0 to h. */
  ghost predicate OfBlocks(bs: Blocks, h: int, d: OperationDoc)
    requires bs.WellFormed() && h < |bs.main|
  {
    exists i, j :: 0 <= i <= h && 0 <= j < |bs.main[i].operations| && DocAt(bs, i, j) == d
  }

  /** The operations in the index are those of the blocks. */
  lemma IndexedOperations(bs: Blocks, h: int, d: OperationDoc)
    requires bs.WellFormed() && h < |bs.main|
    ensures d in OperationsIn(bs.UpTo(h)) <==> OfBlocks(bs, h, d)
  {
    hide InTree, AllDigestible, StatesAtHeight, DocsOf, Blocks.UpTo, Prefixes;
    UpToMembers(bs, h, OperationEntry(d));
    if d in OperationsIn(bs.UpTo(h)) {
      var i :| 0 <= i <= h && OperationEntry(d) in DocsOf(bs.At(i));
      OperationInBlock(bs.At(i), OperationEntry(d));
      var j :| 0 <= j < |bs.At(i).operations| && OperationDocs(bs.At(i))[j] == OperationEntry(d);
      assert DocAt(bs, i, j) == d;
    }
    if OfBlocks(bs, h, d) {
      var i, j :| 0 <= i <= h && 0 <= j < |bs.main[i].operations| && DocAt(bs, i, j) == d;
      DocAtMeaning(bs, i, j);
    }
  }

  /** No two operations share height and index, and both fit into an offset. */
  lemma OperationsApart(bs: Blocks, h: int)
    requires bs.WellFormed() && h < |bs.main| && Bounded(bs)
    ensures Indexed(OperationsIn(bs.UpTo(h)))
  {
    hide Blocks.UpTo, OperationsIn, DocAt, Blocks.WellFormed;
    var docs := OperationsIn(bs.UpTo(h));
    forall d | d in docs
      ensures exists i, j :: 0 <= i <= h && 0 <= j < |bs.main[i].operations| && DocAt(bs, i, j) == d && d.At() == Offset(i, j)
    {
      IndexedOperations(bs, h, d);
      var i, j :| 0 <= i <= h && 0 <= j < |bs.main[i].operations| && DocAt(bs, i, j) == d;
      DocAtMeaning(bs, i, j);
    }
  }

  /**
    A client that follows the next offsets through a digested index sees every selected operation of
    blocks 0 to h exactly once, in order, whatever the limit; nothing else.
  */
  lemma ListingComplete(bs: Blocks, h: int, q: Query, reverse: bool, limit: int)
    requires bs.WellFormed() && h < |bs.main| && Bounded(bs)
    ensures Indexed(OperationsIn(bs.UpTo(h)))
    ensures var s := Follow(OperationsIn(bs.UpTo(h)), q, "", reverse, limit);
            && Ordered(s, reverse)
            && (forall m, n :: 0 <= m < n < |s| ==> s[m] != s[n])
            && (forall d :: d in s <==> q.Selects(d) && OfBlocks(bs, h, d))
  {
    hide Blocks.UpTo, OperationsIn, DocAt, Blocks.WellFormed, Follow, Query.Selects, Indexed, Ordered, OfBlocks;
    OperationsApart(bs, h);
    FollowListsEverything(OperationsIn(bs.UpTo(h)), q, reverse, limit);
    forall d ensures d in OperationsIn(bs.UpTo(h)) <==> OfBlocks(bs, h, d) {
      IndexedOperations(bs, h, d);
    }
  }

  // ---------------------------------------------------------------- what is listed, operation by operation

  /** d says of operation j of the block at height i what the block says of it. */
  ghost predicate Describes(d: OperationDoc, blk: BlockData, i: int, j: nat)
    requires j < |blk.operations|
  {
    var op := blk.operations[j];
    && d.height == i && d.index == j && d.fact == op.fact
    && (forall a :: AddressPrefix(a) in d.addresses <==> a in op.addresses)
    && d.confirmedAt == blk.confirmedAt
    && op.fact in blk.tree && d.inState == blk.tree[op.fact].inState && d.reason == blk.tree[op.fact].reason
  }

  lemma PrefixesMeaning(addrs: seq<Address>, a: Address)
    ensures AddressPrefix(a) in Prefixes(addrs) <==> a in addrs
  {
    if AddressPrefix(a) in Prefixes(addrs) {
      var i :| 0 <= i < |addrs| && Prefixes(addrs)[i] == AddressPrefix(a);
      AddressPrefixInjective(a, addrs[i]);
    }
    if a in addrs {
      var i :| 0 <= i < |addrs| && addrs[i] == a;
      assert Prefixes(addrs)[i] == AddressPrefix(a);
    }
  }

  lemma DocAtDescribes(bs: Blocks, i: nat, j: nat)
    requires bs.WellFormed() && i < |bs.main| && j < |bs.main[i].operations|
    ensures Describes(DocAt(bs, i, j), bs.main[i], i, j)
  {
    hide Digestible, AddressPrefix, Prefixes;
    assert bs.Has(i) && bs.At(i) == bs.main[i];
    assert bs.main[i].operations[j] in bs.main[i].operations;
    forall a ensures AddressPrefix(a) in Prefixes(bs.main[i].operations[j].addresses) <==> a in bs.main[i].operations[j].addresses {
      PrefixesMeaning(bs.main[i].operations[j].addresses, a);
    }
  }

  /** Operation j of the block at height i is what the query asks for. */
  predicate Asked(bs: Blocks, q: Query, i: nat, j: nat)
    requires i < |bs.main| && j < |bs.main[i].operations|
  {
    match q
    case AllOperations => true
    case OfAddress(a) => a in bs.main[i].operations[j].addresses
    case AtHeight(h) => i == h
  }

  ghost predicate ShownAt(s: seq<OperationDoc>, i: nat, j: nat) {
    exists d :: d in s && d.height == i && d.index == j
  }

  /**
    Which operations a client sees that follows the pages: exactly those of the blocks up to h that it
    asked for; for an address, those that name it.
  */
  lemma OperationListed(bs: Blocks, h: int, q: Query, reverse: bool, limit: int, i: nat, j: nat)
    requires bs.WellFormed() && h < |bs.main| && Bounded(bs) && i < |bs.main| && j < |bs.main[i].operations|
    ensures Indexed(OperationsIn(bs.UpTo(h)))
    ensures ShownAt(Follow(OperationsIn(bs.UpTo(h)), q, "", reverse, limit), i, j) <==> i <= h && Asked(bs, q, i, j)
  {
    ListingComplete(bs, h, q, reverse, limit);
    DocAtDescribes(bs, i, j);
    hide Blocks.UpTo, OperationsIn, DocAt, Blocks.WellFormed, Follow, Indexed, AddressPrefix, Ordered;
    var s := Follow(OperationsIn(bs.UpTo(h)), q, "", reverse, limit);
    if ShownAt(s, i, j) {
      var d :| d in s && d.height == i && d.index == j;
      var m, n :| 0 <= m <= h && 0 <= n < |bs.main[m].operations| && DocAt(bs, m, n) == d;
      DocAtDescribes(bs, m, n);
    }
    if i <= h && Asked(bs, q, i, j) {
      assert OfBlocks(bs, h, DocAt(bs, i, j));
      assert DocAt(bs, i, j) in s;
    }
  }

  /** Each entry says what its block says, and the entries come by height and index, or the other way round. */
  lemma ListingTruthful(bs: Blocks, h: int, q: Query, reverse: bool, limit: int)
    requires bs.WellFormed() && h < |bs.main| && Bounded(bs)
    ensures Indexed(OperationsIn(bs.UpTo(h)))
    ensures var s := Follow(OperationsIn(bs.UpTo(h)), q, "", reverse, limit);
            && (forall d :: d in s ==> exists i, j :: 0 <= i <= h && 0 <= j < |bs.main[i].operations| && Describes(d, bs.main[i], i, j))
            && (forall m, n :: 0 <= m < n < |s| ==>
                  if reverse then s[n].height < s[m].height || (s[n].height == s[m].height && s[n].index < s[m].index)
                  else s[m].height < s[n].height || (s[m].height == s[n].height && s[m].index < s[n].index))
  {
    ListingComplete(bs, h, q, reverse, limit);
    hide Blocks.UpTo, OperationsIn, DocAt, Blocks.WellFormed, Follow, Indexed, Query.Selects, Describes;
    var s := Follow(OperationsIn(bs.UpTo(h)), q, "", reverse, limit);
    forall d | d in s
      ensures exists i, j :: 0 <= i <= h && 0 <= j < |bs.main[i].operations| && Describes(d, bs.main[i], i, j)
    {
      var i, j :| 0 <= i <= h && 0 <= j < |bs.main[i].operations| && DocAt(bs, i, j) == d;
      DocAtDescribes(bs, i, j);
    }
  }
}
