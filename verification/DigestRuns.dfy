/**
  Whole runs of the digester: blocks digested and digested again, in any order, crashes after any
  database call, restarts, catching up.
*/
module DigestRuns {
  import opened Prelude
  import opened DigestDocs
  import opened DigestStore

  /** The database and the last block a running node remembers. */
  datatype Db = Db(contents: Contents, lastBlock: int)

  function Max(a: int, b: int): int {
    if a < b then b else a
  }

  function Min(a: int, b: int): int {
    if a < b then a else b
  }

  ghost function Digest(db: Db, blk: BlockData): Db
    requires Prepared(blk)
  {
    Db(ApplyAll(db.contents, DigestCalls(blk, db.lastBlock)), Max(db.lastBlock, blk.height))
  }

  /** Initialize: trust the marker and clean everything above it; without a marker do nothing. */
  ghost function Initialize(s: Contents): Db {
    match s.marker
    case None => Db(s, NIL_HEIGHT)
    case Some(m) => Db(ApplyAll(s, CleanCalls(m + 1)), CleanMarker(m + 1))
  }

  /** Blocks i to height can be loaded and digested. */
  predicate Loadable(bs: Blocks, i: int, height: int) {
    forall j :: i <= j <= height ==> bs.Has(j) && Prepared(bs.At(j))
  }

  /** digestFollowup from block i on. */
  ghost function FollowFrom(bs: Blocks, db: Db, i: int, height: int): Db
    requires Loadable(bs, i, height)
    decreases height - i
  {
    if i > height then db else FollowFrom(bs, Digest(db, bs.At(i)), i + 1, height)
  }

  /** The block catching up starts with: the last digested block itself. */
  function FollowStart(lastBlock: int): int {
    Max(lastBlock, PRE_GENESIS_HEIGHT)
  }

  ghost function FollowUp(bs: Blocks, db: Db, height: int): Db
    requires height <= db.lastBlock || Loadable(bs, FollowStart(db.lastBlock), height)
  {
    if height <= db.lastBlock then db else FollowFrom(bs, db, FollowStart(db.lastBlock), height)
  }

  // ---------------------------------------------------------------- the documents of some blocks

  /** All documents of the blocks up to n whose heights are held. */
  ghost function Part(bs: Blocks, held: set<int>, n: int): multiset<Doc>
    requires bs.WellFormed() && n < |bs.main|
    decreases n + 2
  {
    if n < PRE_GENESIS_HEIGHT then multiset{}
    else Part(bs, held, n - 1) + if n in held then multiset(DocsOf(bs.At(n))) else multiset{}
  }

  ghost function All(bs: Blocks, held: set<int>): multiset<Doc>
    requires bs.WellFormed()
  {
    Part(bs, held, |bs.main| - 1)
  }

  /** How often d occurs in the documents of its own block. */
  ghost function Own(bs: Blocks, d: Doc): nat
    requires bs.WellFormed()
  {
    if bs.Has(d.Height()) then multiset(DocsOf(bs.At(d.Height())))[d] else 0
  }

  lemma ElsewhereNone(bs: Blocks, h: int, d: Doc)
    requires bs.WellFormed() && bs.Has(h) && d.Height() != h
    ensures multiset(DocsOf(bs.At(h)))[d] == 0
  {
    hide DocsOf, InTree, AllDigestible, StatesAtHeight, Doc.Height;
    if d in multiset(DocsOf(bs.At(h))) { BlockDocsHeight(bs, h, d); }
  }

  lemma {:induction false} PartCount(bs: Blocks, held: set<int>, n: int, d: Doc)
    requires bs.WellFormed() && n < |bs.main|
    ensures Part(bs, held, n)[d] == if d.Height() <= n && d.Height() in held then Own(bs, d) else 0
    decreases n + 2
  {
    hide DocsOf, InTree, AllDigestible, StatesAtHeight, Doc.Height;
    if n >= PRE_GENESIS_HEIGHT {
      PartCount(bs, held, n - 1, d);
      if d.Height() != n { ElsewhereNone(bs, n, d); }
    }
  }

  lemma AllCount(bs: Blocks, held: set<int>, d: Doc)
    requires bs.WellFormed()
    ensures All(bs, held)[d] == if d.Height() in held then Own(bs, d) else 0
  {
    hide DocsOf, InTree, AllDigestible, StatesAtHeight, Doc.Height;
    PartCount(bs, held, |bs.main| - 1, d);
  }

  /** Heights 0 to h. */
  function Span(h: int): (s: set<int>)
    ensures forall k :: k in s <==> 0 <= k <= h
    decreases h + 1
  {
    if h < 0 then {} else Span(h - 1) + {h}
  }

  lemma {:induction false} UpToCount(bs: Blocks, h: int, d: Doc)
    requires bs.WellFormed() && h < |bs.main|
    ensures bs.UpTo(h)[d] == if 0 <= d.Height() <= h then Own(bs, d) else 0
    decreases h + 1
  {
    hide DocsOf, InTree, AllDigestible, StatesAtHeight, Doc.Height;
    if h >= 0 {
      UpToCount(bs, h - 1, d);
      if d.Height() != h { ElsewhereNone(bs, h, d); }
    }
  }

  /** Block k has something to index. */
  ghost predicate HasDocs(bs: Blocks, k: int)
    requires bs.WellFormed()
  {
    bs.Has(k) && DocsOf(bs.At(k)) != []
  }

  lemma SomeDoc(bs: Blocks, k: int) returns (d: Doc)
    requires bs.WellFormed() && HasDocs(bs, k)
    ensures d.Height() == k && Own(bs, d) > 0
  {
    hide InTree, AllDigestible, StatesAtHeight, Doc.Height;
    d := DocsOf(bs.At(k))[0];
    assert d in multiset(DocsOf(bs.At(k)));
    BlockDocsHeight(bs, k, d);
  }

  /** The documents of the held blocks are those of blocks 0 to h exactly if no block with documents is off. */
  lemma AllIsUpTo(bs: Blocks, held: set<int>, h: int)
    requires bs.WellFormed() && h < |bs.main|
    ensures All(bs, held) == bs.UpTo(h) <==> forall k :: HasDocs(bs, k) ==> (k in held <==> 0 <= k <= h)
  {
    hide Blocks.WellFormed, Blocks.UpTo, All, Doc.Height, DocsOf;
    if All(bs, held) == bs.UpTo(h) {
      forall k | HasDocs(bs, k) ensures k in held <==> 0 <= k <= h {
        var d := SomeDoc(bs, k);
        AllCount(bs, held, d);
        UpToCount(bs, h, d);
      }
    } else if forall k :: HasDocs(bs, k) ==> (k in held <==> 0 <= k <= h) {
      forall d: Doc ensures All(bs, held)[d] == bs.UpTo(h)[d] {
        AllCount(bs, held, d);
        UpToCount(bs, h, d);
        NoDocs(bs, d);
      }
      SameDocs(All(bs, held), bs.UpTo(h));
    }
  }

  lemma NoDocs(bs: Blocks, d: Doc)
    requires bs.WellFormed()
    ensures Own(bs, d) > 0 ==> HasDocs(bs, d.Height())
  {
    hide Blocks.WellFormed, Doc.Height, DocsOf;
  }

  // ---------------------------------------------------------------- what the calls do to the held blocks

  /** The blocks that survive cleaning by height h. */
  function Kept(held: set<int>, h: int): set<int> {
    if h <= PRE_GENESIS_HEIGHT + 1 then {} else set k | k in held && k < h
  }

  lemma RetainedHeld(bs: Blocks, s: Contents, held: set<int>, h: int)
    requires bs.WellFormed() && s.docs == All(bs, held)
    ensures Retained(s, h) == All(bs, Kept(held, h))
  {
    hide Blocks.WellFormed, All, Below, Doc.Height, Own;
    forall d: Doc ensures Retained(s, h)[d] == All(bs, Kept(held, h))[d] {
      AllCount(bs, held, d);
      AllCount(bs, Kept(held, h), d);
      BelowCount(s.docs, h, d);
    }
    SameDocs(Retained(s, h), All(bs, Kept(held, h)));
  }

  lemma OneMoreHeld(bs: Blocks, held: set<int>, h: int)
    requires bs.WellFormed() && bs.Has(h) && h !in held
    ensures All(bs, held) + multiset(DocsOf(bs.At(h))) == All(bs, held + {h})
  {
    hide InTree, AllDigestible, StatesAtHeight, All, Doc.Height, DocsOf;
    var docs := multiset(DocsOf(bs.At(h)));
    forall d: Doc ensures (All(bs, held) + docs)[d] == All(bs, held + {h})[d] {
      AllCount(bs, held, d);
      AllCount(bs, held + {h}, d);
      if d.Height() != h { ElsewhereNone(bs, h, d); }
    }
    SameDocs(All(bs, held) + docs, All(bs, held + {h}));
  }

  /** Digesting block h: everything from h on is replaced by block h. */
  lemma DigestHeld(bs: Blocks, db: Db, held: set<int>, h: int)
    requires bs.WellFormed() && bs.Has(h) && db.contents.docs == All(bs, held)
    ensures Digest(db, bs.At(h)).contents.docs == All(bs, Kept(held, h) + {h})
    ensures Digest(db, bs.At(h)).contents.marker == Some(if h <= db.lastBlock then CleanMarker(h) else h)
  {
    DigestResult(db.contents, bs.At(h), db.lastBlock);
    RetainedHeld(bs, db.contents, held, h);
    OneMoreHeld(bs, Kept(held, h), h);
    hide InTree, AllDigestible, StatesAtHeight, All, DocsOf, Retained, ApplyAll, DigestCalls;
  }

  /** A restart keeps the blocks up to the marker. */
  function Restarted(held: set<int>, marker: Option<int>): set<int> {
    if marker.None? then held else Kept(held, marker.value + 1)
  }

  lemma InitializeHeld(bs: Blocks, s: Contents, held: set<int>)
    requires bs.WellFormed() && s.docs == All(bs, held)
    ensures Initialize(s).contents.docs == All(bs, Restarted(held, s.marker))
    ensures Initialize(s).contents.marker == if s.marker.None? then None else Some(CleanMarker(s.marker.value + 1))
  {
    hide Blocks.WellFormed, All, CleanCalls, ApplyAll, Kept, Retained;
    if s.marker.Some? {
      CleanResult(s, s.marker.value + 1);
      RetainedHeld(bs, s, held, s.marker.value + 1);
    }
  }

  // ---------------------------------------------------------------- runs

  /** A block digested to the end, or broken off after some database calls by a crash the node restarts from. */
  datatype Event = Digested(h: int) | Crashed(h: int, calls: nat)

  /** held: the heights whose blocks are indexed. */
  datatype Index = Index(db: Db, held: set<int>)

  const EMPTY: Index := Index(Db(Contents(multiset{}, None), NIL_HEIGHT), {})

  /** The calls made before the crash. */
  function CallsMade(blk: BlockData, lastBlock: int, calls: nat): seq<Call>
    requires Prepared(blk)
  {
    var cs := DigestCalls(blk, lastBlock);
    if calls <= |cs| then cs[..calls] else cs
  }

  /** The digest of block h was complete, its marker included, when the crash came. */
  predicate Finished(blk: BlockData, lastBlock: int, calls: nat)
    requires Prepared(blk)
  {
    calls >= |DigestCalls(blk, lastBlock)| && blk.height > lastBlock
  }

  /** The blocks left after a crash and the restart. */
  function Survivors(blk: BlockData, ix: Index, calls: nat): set<int>
    requires Prepared(blk)
  {
    if calls == 0 then Restarted(ix.held, ix.db.contents.marker)
    else if calls == 1 then Restarted(Kept(ix.held, blk.height), ix.db.contents.marker)
    else if Finished(blk, ix.db.lastBlock, calls) then Kept(Kept(ix.held, blk.height) + {blk.height}, blk.height + 1)
    else Kept(ix.held, blk.height)
  }

  ghost function Step(bs: Blocks, ix: Index, e: Event): Index
    requires bs.WellFormed() && bs.Has(e.h)
  {
    match e
    case Digested(h) => Index(Digest(ix.db, bs.At(h)), Kept(ix.held, h) + {h})
    case Crashed(h, calls) =>
      Index(Initialize(ApplyAll(ix.db.contents, CallsMade(bs.At(h), ix.db.lastBlock, calls))), Survivors(bs.At(h), ix, calls))
  }

  ghost predicate InChain(bs: Blocks, es: seq<Event>) {
    forall e :: e in es ==> bs.Has(e.h)
  }

  ghost function Run(bs: Blocks, es: seq<Event>): Index
    requires bs.WellFormed() && InChain(bs, es)
  {
    if es == [] then EMPTY else Step(bs, Run(bs, es[..|es| - 1]), es[|es| - 1])
  }

  /** The index holds exactly the documents of the held blocks, each once. */
  ghost predicate Faithful(bs: Blocks, ix: Index)
    requires bs.WellFormed()
  {
    ix.db.contents.docs == All(bs, ix.held)
  }

  lemma BrokenOff(blk: BlockData, lastBlock: int, calls: nat)
    requires Prepared(blk)
    ensures calls == 0 ==> CallsMade(blk, lastBlock, calls) == []
    ensures calls == 1 ==> CallsMade(blk, lastBlock, calls) == [DeleteFrom(blk.height)]
    ensures calls >= 2 && Finished(blk, lastBlock, calls) ==> CallsMade(blk, lastBlock, calls) == DigestCalls(blk, lastBlock)
    ensures calls >= 2 && !Finished(blk, lastBlock, calls) ==>
              var n := Min(calls - 2, |InsertCalls(blk)|);
              CallsMade(blk, lastBlock, calls) == CleanCalls(blk.height) + InsertCalls(blk)[..n]
  {
    hide InTree, AllDigestible, InsertCalls;
  }

  /** Once the cleaning is done, a restart removes what was inserted of a block that was not finished. */
  lemma UnfinishedHeld(bs: Blocks, s: Contents, held: set<int>, h: int, n: nat)
    requires bs.WellFormed() && bs.Has(h) && s.docs == All(bs, held) && n <= |InsertCalls(bs.At(h))|
    ensures var db := Initialize(ApplyAll(s, CleanCalls(h) + InsertCalls(bs.At(h))[..n]));
            db.contents.docs == All(bs, Kept(held, h)) && db.contents.marker == Some(CleanMarker(h)) && db.lastBlock == CleanMarker(h)
  {
    var more := Inserted(InsertCalls(bs.At(h))[..n]);
    PartHeights(bs, h, n);
    PartResult(s, bs.At(h), n);
    RetainedHeld(bs, s, held, h);
    hide InTree, AllDigestible, StatesAtHeight, InsertCalls, Inserted, All, Below, Doc.Height, ApplyAll, CleanCalls;
    CleanResult(Contents(Retained(s, h) + more, Some(CleanMarker(h))), CleanMarker(h) + 1);
    if h >= 1 { HigherDocs(s.docs, more, h); }
  }

  lemma CrashedFaithful(bs: Blocks, ix: Index, h: int, calls: nat)
    requires bs.WellFormed() && bs.Has(h) && Faithful(bs, ix)
    ensures Faithful(bs, Step(bs, ix, Crashed(h, calls)))
  {
    var blk, s, lastBlock := bs.At(h), ix.db.contents, ix.db.lastBlock;
    BrokenOff(blk, lastBlock, calls);
    assert blk.height == h;
    hide Blocks.WellFormed, All, Kept, Initialize, DigestCalls, CallsMade, InsertCalls, Retained, Finished, Restarted, ApplyAll;
    if calls == 0 {
      assert ApplyAll(s, []) == s by { NoCalls(s); }
      InitializeHeld(bs, s, ix.held);
    } else if calls == 1 {
      ApplyOne(s, DeleteFrom(h));
      RetainedHeld(bs, s, ix.held, h);
      DeletedHeld(bs, s, ix.held, h);
    } else if Finished(blk, lastBlock, calls) {
      FinishedHeld(bs, ix, h);
      AboveLastBlock(blk, lastBlock, calls);
    } else {
      UnfinishedHeld(bs, s, ix.held, h, Min(calls - 2, |InsertCalls(blk)|));
    }
  }

  lemma NoCalls(s: Contents)
    ensures ApplyAll(s, []) == s
  {}

  lemma AboveLastBlock(blk: BlockData, lastBlock: int, calls: nat)
    requires Prepared(blk) && Finished(blk, lastBlock, calls)
    ensures blk.height > lastBlock
  {}

  lemma DeletedHeld(bs: Blocks, s: Contents, held: set<int>, h: int)
    requires bs.WellFormed() && s.docs == All(bs, held)
    ensures Initialize(Apply(s, DeleteFrom(h))).contents.docs == All(bs, Restarted(Kept(held, h), s.marker))
  {
    hide Blocks.WellFormed, All, Kept, Initialize, Below;
    RetainedHeld(bs, s, held, h);
    InitializeHeld(bs, Apply(s, DeleteFrom(h)), Kept(held, h));
  }

  lemma FinishedHeld(bs: Blocks, ix: Index, h: int)
    requires bs.WellFormed() && bs.Has(h) && Faithful(bs, ix) && h > ix.db.lastBlock
    ensures Initialize(ApplyAll(ix.db.contents, DigestCalls(bs.At(h), ix.db.lastBlock))).contents.docs ==
            All(bs, Kept(Kept(ix.held, h) + {h}, h + 1))
  {
    hide InTree, AllDigestible, StatesAtHeight, All, Kept, Initialize, DigestCalls, ApplyAll;
    DigestHeld(bs, ix.db, ix.held, h);
    InitializeHeld(bs, Digest(ix.db, bs.At(h)).contents, Kept(ix.held, h) + {h});
  }

  lemma StepFaithful(bs: Blocks, ix: Index, e: Event)
    requires bs.WellFormed() && bs.Has(e.h) && Faithful(bs, ix)
    ensures Faithful(bs, Step(bs, ix, e))
  {
    hide Blocks.WellFormed, All, Kept, Digest, Survivors;
    match e
    case Digested(h) => DigestHeld(bs, ix.db, ix.held, h);
    case Crashed(h, calls) => CrashedFaithful(bs, ix, h, calls);
  }

  /**
    After any run of digests in any order, crashes after any call, and restarts, the index holds
    exactly the documents of the blocks the run leaves, each once, and nothing of any other block.
  */
  lemma {:induction false} RunFaithful(bs: Blocks, es: seq<Event>)
    requires bs.WellFormed() && InChain(bs, es)
    ensures Run(bs, es).db.contents.docs == All(bs, Run(bs, es).held)
  {
    hide Blocks.WellFormed, Step, All;
    if es == [] {
      NothingHeld(bs);
    } else {
      var front := es[..|es| - 1];
      assert es == front + [es[|es| - 1]];
      RunFaithful(bs, front);
      StepFaithful(bs, Run(bs, front), es[|es| - 1]);
    }
  }

  lemma NothingHeld(bs: Blocks)
    requires bs.WellFormed()
    ensures All(bs, {}) == multiset{}
  {
    hide Blocks.WellFormed, All, Own;
    forall d: Doc ensures All(bs, {})[d] == 0 { AllCount(bs, {}, d); }
    SameDocs(All(bs, {}), multiset{});
  }

  // ---------------------------------------------------------------- catching up

  /** The blocks held after digesting blocks i to height. */
  function Followed(held: set<int>, i: int, height: int): set<int> {
    if i < 0 then Span(height) else Kept(held, i) + (Span(height) - Span(i - 1))
  }

  lemma FollowedStep(held: set<int>, i: int, height: int)
    requires PRE_GENESIS_HEIGHT <= i <= height && height >= 0
    ensures Followed(held, i, height) ==
            if i < height then Followed(Kept(held, i) + {i}, i + 1, height) else Kept(held, i) + {i}
  {}

  lemma {:induction false} FollowHeld(bs: Blocks, db: Db, held: set<int>, i: int, height: int)
    requires bs.WellFormed() && PRE_GENESIS_HEIGHT <= i <= height < |bs.main| && height >= 0
    requires db.contents.docs == All(bs, held)
    ensures FollowFrom(bs, db, i, height).contents.docs == All(bs, Followed(held, i, height))
    decreases height - i
  {
    var next, more := Digest(db, bs.At(i)), Kept(held, i) + {i};
    DigestHeld(bs, db, held, i);
    hide InTree, AllDigestible, StatesAtHeight, All, Digest;
    FollowedStep(held, i, height);
    hide Kept, Followed;
    if i < height {
      FollowHeld(bs, next, more, i + 1, height);
    } else {
      assert FollowFrom(bs, db, i, height) == next;
    }
  }

  lemma {:induction false} FollowMarker(bs: Blocks, db: Db, i: int, height: int)
    requires bs.WellFormed() && PRE_GENESIS_HEIGHT <= i <= height < |bs.main| && height > db.lastBlock
    ensures var r := FollowFrom(bs, db, i, height); r.contents.marker == Some(height) && r.lastBlock == height
    decreases height - i
  {
    hide InTree, AllDigestible, StatesAtHeight, DocsOf, DigestCalls, ApplyAll, Retained;
    var next := Digest(db, bs.At(i));
    DigestResult(db.contents, bs.At(i), db.lastBlock);
    if i < height {
      FollowMarker(bs, next, i + 1, height);
    } else {
      assert FollowFrom(bs, db, i, height) == next;
    }
  }

  /** Every block below n that has documents is held, and the block before genesis is not. */
  ghost predicate CompleteBelow(bs: Blocks, held: set<int>, n: int)
    requires bs.WellFormed()
  {
    n >= 1 ==> forall k :: HasDocs(bs, k) && k < n ==> (k in held <==> k >= 0)
  }

  /** Catching up ends complete exactly if nothing below its first block is missing. */
  lemma FollowUpMeaning(bs: Blocks, ix: Index, height: nat)
    requires bs.WellFormed() && Faithful(bs, ix) && height < |bs.main| && height > ix.db.lastBlock
    ensures var r := FollowUp(bs, ix.db, height);
            && (r.contents.docs == bs.UpTo(height) <==> CompleteBelow(bs, ix.held, FollowStart(ix.db.lastBlock)))
            && r.contents.marker == Some(height) && r.lastBlock == height
  {
    hide InTree, AllDigestible, StatesAtHeight, All, FollowFrom, Blocks.UpTo, HasDocs;
    var start := FollowStart(ix.db.lastBlock);
    FollowHeld(bs, ix.db, ix.held, start, height);
    FollowMarker(bs, ix.db, start, height);
    AllIsUpTo(bs, Followed(ix.held, start, height), height);
  }

  lemma SameBelow(bs: Blocks, held: set<int>, m: int, n: int)
    requires bs.WellFormed() && n <= m + 1
    ensures CompleteBelow(bs, Kept(held, m + 1), n) <==> CompleteBelow(bs, held, n)
  {
    hide Blocks.WellFormed, HasDocs;
  }

  lemma NothingBelow(bs: Blocks, held: set<int>, n: int)
    requires bs.WellFormed()
    ensures n < 1 ==> CompleteBelow(bs, held, n)
  {}

  lemma NothingToFollow(bs: Blocks, db: Db, height: int)
    requires height <= db.lastBlock
    ensures FollowUp(bs, db, height) == db
  {}

  lemma RestartedIndex(bs: Blocks, ix: Index) returns (again: Index)
    requires bs.WellFormed() && Faithful(bs, ix)
    ensures again == Index(Initialize(ix.db.contents), Restarted(ix.held, ix.db.contents.marker)) && Faithful(bs, again)
    ensures CompleteBelow(bs, again.held, FollowStart(again.db.lastBlock)) <==> CompleteBelow(bs, ix.held, again.db.lastBlock)
    ensures again.db.lastBlock >= 0 ==> again.db.contents.marker == ix.db.contents.marker == Some(again.db.lastBlock)
  {
    hide Blocks.WellFormed, All, CompleteBelow, ApplyAll, CleanCalls, Kept;
    var s := ix.db.contents;
    again := Index(Initialize(s), Restarted(ix.held, s.marker));
    InitializeHeld(bs, s, ix.held);
    if s.marker.Some? && s.marker.value >= 0 {
      SameBelow(bs, ix.held, s.marker.value, s.marker.value);
    } else {
      NothingBelow(bs, ix.held, again.db.lastBlock);
      NothingBelow(bs, again.held, FollowStart(again.db.lastBlock));
    }
  }

  /** What a restart alone leaves is complete exactly if nothing up to the marker is missing. */
  lemma RestartComplete(bs: Blocks, ix: Index, m: nat)
    requires bs.WellFormed() && m < |bs.main| && ix.db.contents.marker == Some(m)
    ensures All(bs, Restarted(ix.held, Some(m))) == bs.UpTo(m) <==> CompleteBelow(bs, ix.held, m + 1)
  {
    hide Blocks.WellFormed, All, Blocks.UpTo, HasDocs;
    AllIsUpTo(bs, Kept(ix.held, m + 1), m);
  }

  /**
    Recovery from any run whatever: after a restart and, where it is due, catching up, the index is
    complete exactly if no block with documents is missing from those the run left below the marker.
  */
  lemma RestartMeaning(bs: Blocks, es: seq<Event>, height: nat)
    requires bs.WellFormed() && InChain(bs, es) && height < |bs.main|
    ensures var ix := Run(bs, es);
            var db := Initialize(ix.db.contents);
            var r := FollowUp(bs, db, height);
            if height > db.lastBlock then
              && (r.contents.docs == bs.UpTo(height) <==> CompleteBelow(bs, ix.held, db.lastBlock))
              && r.contents.marker == Some(height) && r.lastBlock == height
            else
              && r == db && db.contents.marker == Some(db.lastBlock)
              && (db.lastBlock < |bs.main| ==>
                    (db.contents.docs == bs.UpTo(db.lastBlock) <==> CompleteBelow(bs, ix.held, db.lastBlock + 1)))
  {
    RunFaithful(bs, es);
    var ix := Run(bs, es);
    hide Blocks.WellFormed, All, Run, CompleteBelow, Initialize, InChain, Blocks.UpTo, FollowUp;
    if height > Initialize(ix.db.contents).lastBlock {
      RestartFollows(bs, ix, height);
    } else {
      NothingToFollow(bs, Initialize(ix.db.contents), height);
      RestartStays(bs, ix);
    }
  }

  lemma RestartFollows(bs: Blocks, ix: Index, height: nat)
    requires bs.WellFormed() && Faithful(bs, ix) && height < |bs.main|
    requires height > Initialize(ix.db.contents).lastBlock
    ensures var db := Initialize(ix.db.contents);
            var r := FollowUp(bs, db, height);
            && (r.contents.docs == bs.UpTo(height) <==> CompleteBelow(bs, ix.held, db.lastBlock))
            && r.contents.marker == Some(height) && r.lastBlock == height
  {
    var again := RestartedIndex(bs, ix);
    hide Blocks.WellFormed, CompleteBelow, Initialize, Blocks.UpTo, FollowUp, Restarted, Faithful;
    FollowUpMeaning(bs, again, height);
  }

  lemma RestartStays(bs: Blocks, ix: Index)
    requires bs.WellFormed() && Faithful(bs, ix) && Initialize(ix.db.contents).lastBlock >= 0
    ensures var db := Initialize(ix.db.contents);
            && db.contents.marker == Some(db.lastBlock)
            && (db.lastBlock < |bs.main| ==>
                  (db.contents.docs == bs.UpTo(db.lastBlock) <==> CompleteBelow(bs, ix.held, db.lastBlock + 1)))
  {
    var again := RestartedIndex(bs, ix);
    hide Blocks.WellFormed, CompleteBelow, Initialize, Blocks.UpTo, Restarted, All;
    if again.db.lastBlock < |bs.main| { RestartComplete(bs, ix, again.db.lastBlock); }
  }

  // ---------------------------------------------------------------- blocks digested in order

  /**
    No block is skipped, old blocks may come again, and crashes may come anywhere, except that an
    older block than the last one is not broken off between its deletion and the new marker.
  */
  ghost predicate Follows(ix: Index, e: Event) {
    && (forall k :: 0 <= k < e.h ==> k in ix.held)
    && (e.Crashed? && e.calls == 1 ==> ix.db.contents.marker.None? || ix.db.contents.marker.value <= e.h)
  }

  ghost predicate InOrder(bs: Blocks, es: seq<Event>)
    requires bs.WellFormed() && InChain(bs, es)
  {
    es == [] || (InOrder(bs, es[..|es| - 1]) && Follows(Run(bs, es[..|es| - 1]), es[|es| - 1]))
  }

  /**
    Blocks 0 to top are held, or, when a digest from scratch has just begun, the block before genesis
    alone.  The marker never promises more, except for the last block while it is being digested
    again; then that block is also where catching up starts.
  */
  ghost predicate Tracked(ix: Index, top: int) {
    && top >= PRE_GENESIS_HEIGHT && ix.db.lastBlock >= NIL_HEIGHT
    && var marker := ix.db.contents.marker;
       && (marker.Some? ==> marker.value <= top || marker.value == top + 1 == ix.db.lastBlock)
       && (ix.held == Span(top) || (Begun(ix.held, top) && marker.Some? && marker.value < 0))
  }

  ghost predicate Begun(held: set<int>, top: int) {
    held == {PRE_GENESIS_HEIGHT} && top == PRE_GENESIS_HEIGHT
  }

  lemma KeptSpan(held: set<int>, top: int, h: int)
    requires top >= PRE_GENESIS_HEIGHT && PRE_GENESIS_HEIGHT <= h <= top + 1
    requires held == Span(top) || Begun(held, top)
    ensures Kept(held, h) == Span(h - 1)
    ensures h >= 0 ==> Kept(held, h) + {h} == Span(h) && Kept(Span(h), h + 1) == Span(h)
  {}

  lemma NextHeight(held: set<int>, top: int, h: int)
    requires top >= PRE_GENESIS_HEIGHT && (held == Span(top) || Begun(held, top))
    requires forall k :: 0 <= k < h ==> k in held
    ensures h <= top + 1
  {
    assert top + 1 !in held;
  }

  lemma DigestedTracked(bs: Blocks, ix: Index, top: int, h: int)
    requires bs.WellFormed() && bs.Has(h) && Tracked(ix, top) && Follows(ix, Digested(h))
    ensures Tracked(Step(bs, ix, Digested(h)), h)
  {
    hide InTree, AllDigestible, StatesAtHeight, DigestCalls, ApplyAll, DocsOf, Retained, Kept;
    NextHeight(ix.held, top, h);
    KeptSpan(ix.held, top, h);
    DigestResult(ix.db.contents, bs.At(h), ix.db.lastBlock);
  }

  /** Where the marker and the last block stand after a crash and the restart. */
  lemma CrashedMarker(bs: Blocks, ix: Index, h: int, calls: nat)
    requires bs.WellFormed() && bs.Has(h)
    ensures var blk, was := bs.At(h), ix.db.contents.marker;
            var db := Step(bs, ix, Crashed(h, calls)).db;
            var marker := if calls <= 1 then was else if Finished(blk, ix.db.lastBlock, calls) then Some(h) else Some(CleanMarker(h));
            && db.contents.marker == (if marker.None? then None else Some(CleanMarker(marker.value + 1)))
            && db.lastBlock == (if marker.None? then NIL_HEIGHT else CleanMarker(marker.value + 1))
  {
    var blk, s, lastBlock := bs.At(h), ix.db.contents, ix.db.lastBlock;
    BrokenOff(blk, lastBlock, calls);
    assert blk.height == h;
    hide Blocks.WellFormed, DigestCalls, CallsMade, InsertCalls, Retained, Finished, CleanCalls, Survivors, ApplyAll;
    var t := ApplyAll(s, CallsMade(blk, lastBlock, calls));
    if calls == 0 {
      NoCalls(s);
    } else if calls == 1 {
      ApplyOne(s, DeleteFrom(h));
    } else if calls >= 2 && Finished(blk, lastBlock, calls) {
      AboveLastBlock(blk, lastBlock, calls);
      DigestResult(s, blk, lastBlock);
    } else if calls >= 2 {
      PartResult(s, blk, Min(calls - 2, |InsertCalls(blk)|));
    }
    if t.marker.Some? { CleanResult(t, t.marker.value + 1); }
  }

  lemma CrashedTracked(bs: Blocks, ix: Index, top: int, h: int, calls: nat) returns (now: int)
    requires bs.WellFormed() && bs.Has(h) && Tracked(ix, top) && Follows(ix, Crashed(h, calls)) && top < |bs.main|
    ensures PRE_GENESIS_HEIGHT <= now < |bs.main| && Tracked(Step(bs, ix, Crashed(h, calls)), now)
  {
    CrashedMarker(bs, ix, h, calls);
    NextHeight(ix.held, top, h);
    KeptSpan(ix.held, top, h);
    assert bs.At(h).height == h;
    hide InTree, AllDigestible, StatesAtHeight, Finished, Initialize, CallsMade, ApplyAll;
    var marker := ix.db.contents.marker;
    if calls == 0 {
      now := CutBy(ix.held, top, marker);
    } else if calls == 1 {
      now := CutBy(Kept(ix.held, h), Max(h - 1, PRE_GENESIS_HEIGHT), marker);
    } else if Finished(bs.At(h), ix.db.lastBlock, calls) {
      now := h;
    } else {
      now := Max(h - 1, PRE_GENESIS_HEIGHT);
    }
  }

  /** What a restart makes of blocks 0 to top. */
  lemma CutBy(held: set<int>, top: int, marker: Option<int>) returns (now: int)
    requires top >= PRE_GENESIS_HEIGHT
    requires held == Span(top) || (Begun(held, top) && marker.Some? && marker.value < 0)
    ensures Restarted(held, marker) == Span(now)
    ensures now == if marker.None? then top else if marker.value < 0 then PRE_GENESIS_HEIGHT else Min(top, marker.value)
  {
    now := if marker.None? then top else if marker.value < 0 then PRE_GENESIS_HEIGHT else Min(top, marker.value);
  }

  /**
    Blocks digested in order, with repetitions and crashes: the index is exactly blocks 0 to some
    top, and the marker never exceeds it, except for the last block while that is digested again.
  */
  lemma {:induction false} RunExact(bs: Blocks, es: seq<Event>) returns (top: int)
    requires bs.WellFormed() && InChain(bs, es) && InOrder(bs, es)
    ensures PRE_GENESIS_HEIGHT <= top < |bs.main| && Tracked(Run(bs, es), top)
    ensures Run(bs, es).held == Span(top) ==> Run(bs, es).db.contents.docs == bs.UpTo(top)
  {
    hide Blocks.WellFormed, Step, Tracked, Follows, All, HasDocs, Blocks.UpTo;
    if es == [] {
      top := PRE_GENESIS_HEIGHT;
      EmptyTracked();
    } else {
      var front, e := es[..|es| - 1], es[|es| - 1];
      assert es == front + [e];
      var before := RunExact(bs, front);
      top := StepTracked(bs, Run(bs, front), before, e);
    }
    RunFaithful(bs, es);
    AllIsUpTo(bs, Span(top), top);
  }

  lemma EmptyTracked()
    ensures Tracked(EMPTY, PRE_GENESIS_HEIGHT)
  {}

  lemma StepTracked(bs: Blocks, ix: Index, top: int, e: Event) returns (now: int)
    requires bs.WellFormed() && bs.Has(e.h) && Tracked(ix, top) && Follows(ix, e) && top < |bs.main|
    ensures PRE_GENESIS_HEIGHT <= now < |bs.main| && Tracked(Step(bs, ix, e), now)
  {
    hide Step, Tracked, Follows;
    match e
    case Digested(h) =>
      DigestedTracked(bs, ix, top, h);
      now := h;
    case Crashed(h, calls) => now := CrashedTracked(bs, ix, top, h, calls);
  }

  /**
    Recovery of a node that digests in order: after a restart, catching up to the last block of the
    chain, when it is newer than the last digested one, restores the full index, wherever the crashes
    came; the first call of catching up, the deletion of the last block, included.
  */
  lemma RestartRestores(bs: Blocks, es: seq<Event>, height: nat)
    requires bs.WellFormed() && InChain(bs, es) && InOrder(bs, es) && height < |bs.main|
    requires height > Initialize(Run(bs, es).db.contents).lastBlock
    ensures FollowUp(bs, Initialize(Run(bs, es).db.contents), height) == Db(Contents(bs.UpTo(height), Some(height)), height)
  {
    var top := RunExact(bs, es);
    RestartMeaning(bs, es, height);
    TrackedComplete(bs, Run(bs, es), top);
    hide Blocks.WellFormed, Run, FollowUp, Initialize, InOrder, InChain, Tracked, CompleteBelow;
  }

  lemma TrackedComplete(bs: Blocks, ix: Index, top: int)
    requires bs.WellFormed() && Tracked(ix, top)
    ensures CompleteBelow(bs, ix.held, Initialize(ix.db.contents).lastBlock)
  {
    hide Blocks.WellFormed, HasDocs, ApplyAll;
  }

  // ---------------------------------------------------------------- broken off between deletion and marker

  lemma WholeIndex(bs: Blocks, m: nat, h: nat)
    requires bs.WellFormed() && h <= m < |bs.main|
    ensures var s := Contents(bs.UpTo(m), Some(m));
            && Sound(bs, s) && Ready(bs, s, h) && s.docs == All(bs, Span(m))
  {
    hide Below, Blocks.UpTo, DocsOf, InTree, AllDigestible, StatesAtHeight, All;
    UpToBelow(bs, m, m + 1);
    UpToBelow(bs, m, h);
    AllIsUpTo(bs, Span(m), m);
  }

  /** Nothing is missing below m exactly if blocks h to m - 1 have no documents. */
  lemma SpanComplete(bs: Blocks, m: nat, h: nat)
    requires bs.WellFormed() && h <= m < |bs.main|
    ensures CompleteBelow(bs, Span(h - 1), m) <==> bs.UpTo(m - 1) == bs.UpTo(h - 1)
  {
    hide Blocks.WellFormed, All, Blocks.UpTo, HasDocs;
    AllIsUpTo(bs, Span(h - 1), h - 1);
    AllIsUpTo(bs, Span(h - 1), m - 1);
  }

  lemma DeletedIndex(bs: Blocks, m: nat, h: nat)
    requires bs.WellFormed() && h <= m < |bs.main|
    ensures var s := Apply(Contents(bs.UpTo(m), Some(m)), DeleteFrom(h));
            && Initialize(s).contents.docs == All(bs, Span(h - 1)) && Initialize(s).lastBlock == m
  {
    hide Blocks.WellFormed, All, Blocks.UpTo, ApplyAll, Below;
    WholeIndex(bs, m, h);
    DeletedHeld(bs, Contents(bs.UpTo(m), Some(m)), Span(m), h);
    assert Restarted(Kept(Span(m), h), Some(m)) == Span(h - 1);
  }

  /**
    A complete index up to m, block h digested again and broken off right after the deletion.  The
    marker still promises m, which is wrong unless nothing was deleted.  The next start restores the
    index exactly if blocks h to m - 1 have no documents; so it always does for the last block, h == m.
  */
  lemma CrashWhileCleaning(bs: Blocks, m: nat, h: nat, lastBlock: int, height: nat)
    requires bs.WellFormed() && h <= m < height < |bs.main|
    ensures var s := ApplyAll(Contents(bs.UpTo(m), Some(m)), CallsMade(bs.At(h), lastBlock, 1));
            var r := FollowUp(bs, Initialize(s), height);
            && (Sound(bs, s) <==> bs.UpTo(m) == bs.UpTo(h - 1))
            && (r.contents.docs == bs.UpTo(height) <==> bs.UpTo(m - 1) == bs.UpTo(h - 1))
            && r.contents.marker == Some(height)
  {
    var s := Contents(bs.UpTo(m), Some(m));
    BrokenOff(bs.At(h), lastBlock, 1);
    ApplyOne(s, DeleteFrom(h));
    WholeIndex(bs, m, h);
    HalfCleaned(bs, s, h);
    DeletedIndex(bs, m, h);
    SpanComplete(bs, m, h);
    assert bs.At(h).height == h;
    hide Blocks.WellFormed, Blocks.UpTo, All, FollowUp, Initialize, CompleteBelow, CallsMade, Sound, Ready, ApplyAll, Below;
    FollowUpMeaning(bs, Index(Initialize(Apply(s, DeleteFrom(h))), Span(h - 1)), height);
  }

  /**
    Of the function alone: had block 0 been digested again after blocks 0, 1 and 2, catching up to
    height 3 would start at 2 and leave block 1 out.  The program catches up at start-up only, before
    it digests anything else.
  */
  lemma FollowUpGap(bs: Blocks)
    requires bs.WellFormed() && |bs.main| == 4 && HasDocs(bs, 1)
    ensures var es := [Digested(0), Digested(1), Digested(2), Digested(0)];
            InChain(bs, es) && FollowUp(bs, Run(bs, es).db, 3).contents.docs != bs.UpTo(3)
  {
    var es := ThreeThenFirst(bs);
    RunFaithful(bs, es);
    FollowUpMeaning(bs, Run(bs, es), 3);
    hide Blocks.WellFormed, HasDocs, Run, FollowUp, Blocks.UpTo;
  }

  lemma RunOne(bs: Blocks, es: seq<Event>, h: nat)
    requires bs.WellFormed() && InChain(bs, es) && bs.Has(h)
    ensures InChain(bs, es + [Digested(h)])
    ensures Run(bs, es + [Digested(h)]).held == Kept(Run(bs, es).held, h) + {h}
    ensures Run(bs, es + [Digested(h)]).db.lastBlock == Max(Run(bs, es).db.lastBlock, h)
  {
    assert bs.At(h).height == h;
    hide InTree, AllDigestible, StatesAtHeight, DigestCalls, ApplyAll;
    assert (es + [Digested(h)])[..|es|] == es;
  }

  lemma ThreeThenFirst(bs: Blocks) returns (es: seq<Event>)
    requires bs.WellFormed() && |bs.main| == 4
    ensures es == [Digested(0), Digested(1), Digested(2), Digested(0)]
    ensures InChain(bs, es) && Run(bs, es).held == {0} && Run(bs, es).db.lastBlock == 2
  {
    assert InChain(bs, []) && Run(bs, []) == EMPTY;
    hide Blocks.WellFormed, Run, InChain;
    RunOne(bs, [], 0);
    RunOne(bs, [] + [Digested(0)], 1);
    RunOne(bs, [] + [Digested(0)] + [Digested(1)], 2);
    RunOne(bs, [] + [Digested(0)] + [Digested(1)] + [Digested(2)], 0);
    es := [] + [Digested(0)] + [Digested(1)] + [Digested(2)] + [Digested(0)];
  }
}
