/** Loading currency designs from the state collection into the currency pool. */
module Currencies {
  import opened Prelude
  import opened StateKeys
  import opened Pools
  import opened DigestDocs

  /** The state collection: one state per key and height, designs under their own keys. */
  ghost predicate Stored(docs: set<SavedState>) {
    && (forall s :: s in docs && IsDesignKey(s.key) ==> s.value.DesignValue? && s.key == DesignKey(s.value.design.cid))
    && (forall s, t :: s in docs && t in docs && s.key == t.key && s.height == t.height ==> s == t)
  }

  predicate Wanted(s: SavedState, height: int, keys: set<string>) {
    IsDesignKey(s.key) && s.height >= height && s.key !in keys
  }

  /** FindOne, sorted by descending height. */
  method FindLatest(docs: set<SavedState>, height: int, keys: set<string>) returns (r: Option<SavedState>)
    ensures r.None? <==> forall s :: s in docs ==> !Wanted(s, height, keys)
    ensures r.Some? ==>
              && r.value in docs && Wanted(r.value, height, keys)
              && forall s :: s in docs && Wanted(s, height, keys) ==> s.height <= r.value.height
  {
    hide IsDesignKey;
    r := None;
    var todo := docs;
    while todo != {}
      invariant todo <= docs
      invariant r.None? ==> forall s :: s in docs - todo ==> !Wanted(s, height, keys)
      invariant r.Some? ==>
                  && r.value in docs && Wanted(r.value, height, keys)
                  && forall s :: s in docs - todo && Wanted(s, height, keys) ==> s.height <= r.value.height
    {
      var s :| s in todo;
      todo := todo - {s};
      if Wanted(s, height, keys) && (r.None? || r.value.height < s.height) { r := Some(s); }
    }
  }

  ghost predicate Newest(docs: set<SavedState>, key: string, s: SavedState) {
    s in docs && s.key == key && forall t :: t in docs && t.key == key ==> t.height <= s.height
  }

  ghost predicate HasVersion(docs: set<SavedState>, c: CurrencyID, height: int) {
    exists s :: s in docs && s.key == DesignKey(c) && s.height >= height
  }

  /** v is the newest version of the design of c. */
  ghost predicate VersionIs(docs: set<SavedState>, c: CurrencyID, v: DesignState) {
    exists s :: Newest(docs, DesignKey(c), s) && s.height == v.height && s.value == DesignValue(v.design)
  }

  /** The newest version of every design that has one at or above height. */
  ghost predicate Latest(loaded: map<CurrencyID, DesignState>, docs: set<SavedState>, height: int) {
    && (forall c :: c in loaded <==> HasVersion(docs, c, height))
    && (forall c :: c in loaded ==> VersionIs(docs, c, loaded[c]))
  }

  ghost function Unseen(docs: set<SavedState>, height: int, keys: set<string>): set<SavedState> {
    set s | s in docs && Wanted(s, height, keys)
  }

  lemma DesignKeyOf(s: SavedState, docs: set<SavedState>)
    requires Stored(docs) && s in docs
    ensures IsDesignKey(s.key) <==> exists c :: s.key == DesignKey(c)
    ensures IsDesignKey(s.key) ==> s.key == DesignKey(s.value.design.cid)
  {}

  ghost predicate Seen(keys: set<string>, c: CurrencyID) {
    DesignKey(c) in keys
  }

  lemma SeenOneMore(keys: set<string>, cid: CurrencyID, c: CurrencyID)
    ensures Seen(keys + {DesignKey(cid)}, c) <==> Seen(keys, c) || c == cid
  {
    DesignKeyInjective(c, cid);
    hide DesignKey;
  }

  /** What the loop has loaded when it has seen the given keys. */
  ghost predicate LoadedSoFar(loaded: map<CurrencyID, DesignState>, keys: set<string>, docs: set<SavedState>, height: int) {
    && (forall c :: c in loaded <==> Seen(keys, c))
    && (forall c :: c in loaded ==> HasVersion(docs, c, height) && VersionIs(docs, c, loaded[c]))
  }

  lemma LoadedNothing(docs: set<SavedState>, height: int)
    ensures LoadedSoFar(map[], {}, docs, height)
  {}

  lemma LoadedOneMore(loaded: map<CurrencyID, DesignState>, keys: set<string>, docs: set<SavedState>, height: int, s: SavedState)
    requires Stored(docs) && LoadedSoFar(loaded, keys, docs, height)
    requires s in docs && Wanted(s, height, keys)
    requires forall t :: t in docs && Wanted(t, height, keys) ==> t.height <= s.height
    ensures s.value.DesignValue? && s.value.design.cid !in loaded
    ensures LoadedSoFar(loaded[s.value.design.cid := DesignState(s.height, s.value.design)], keys + {s.key}, docs, height)
  {
    DesignKeyOf(s, docs);
    NewestFound(docs, height, keys, s);
    var cid := s.value.design.cid;
    var v := DesignState(s.height, s.value.design);
    assert Newest(docs, DesignKey(cid), s) && s.height >= height && !Seen(keys, cid);
    assert VersionIs(docs, cid, v) && HasVersion(docs, cid, height);
    hide IsDesignKey, DesignKey, Stored, Wanted, Newest, HasVersion, VersionIs, Seen;
    forall c ensures Seen(keys + {s.key}, c) <==> Seen(keys, c) || c == cid { SeenOneMore(keys, cid, c); }
  }

  lemma LoadedAll(loaded: map<CurrencyID, DesignState>, keys: set<string>, docs: set<SavedState>, height: int)
    requires Stored(docs) && LoadedSoFar(loaded, keys, docs, height)
    requires forall s :: s in docs ==> !Wanted(s, height, keys)
    ensures Latest(loaded, docs, height)
  {}

  lemma OneMoreEntry<V>(m: map<CurrencyID, V>, n: map<CurrencyID, V>, c: CurrencyID, v: V)
    requires c !in n
    ensures (m + n)[c := v] == m + n[c := v] && |n[c := v]| == |n| + 1
  {}

  /**
    LoadCurrenciesFromDatabase with a callback that sets the pool: each currency is visited once, at
    its newest version, and the loop ends when no unseen key is left.
  */
  method LoadCurrencies(docs: set<SavedState>, height: int, cp: CurrencyPool)
    returns (ghost loaded: map<CurrencyID, DesignState>)
    requires Stored(docs) && cp.Valid()
    modifies cp
    ensures cp.Valid() && Latest(loaded, docs, height)
    ensures cp.stsmap == old(cp.stsmap) + loaded
    ensures |cp.cids| == |old(cp.cids)| + |loaded|
  {
    hide IsDesignKey, DesignKey, Stored, Wanted, Newest, HasVersion, VersionIs, Latest, Seen, Unseen;
    loaded := map[];
    var keys: set<string> := {};
    LoadedNothing(docs, height);
    while true
      invariant cp.Valid() && cp.stsmap == old(cp.stsmap) + loaded && |cp.cids| == |old(cp.cids)| + |loaded|
      invariant LoadedSoFar(loaded, keys, docs, height)
      decreases |Unseen(docs, height, keys)|
    {
      var sta := FindLatest(docs, height, keys);
      if sta.None? { break; }
      var s := sta.value;
      LoadedOneMore(loaded, keys, docs, height, s);
      FewerUnseen(docs, height, keys, s);
      OneMoreEntry(old(cp.stsmap), loaded, s.value.design.cid, DesignState(s.height, s.value.design));
      cp.Set(DesignState(s.height, s.value.design));
      keys, loaded := keys + {s.key}, loaded[s.value.design.cid := DesignState(s.height, s.value.design)];
    }
    LoadedAll(loaded, keys, docs, height);
  }

  lemma NewestFound(docs: set<SavedState>, height: int, keys: set<string>, s: SavedState)
    requires s in docs && Wanted(s, height, keys)
    requires forall t :: t in docs && Wanted(t, height, keys) ==> t.height <= s.height
    ensures Newest(docs, s.key, s)
  {}

  lemma FewerUnseen(docs: set<SavedState>, height: int, keys: set<string>, s: SavedState)
    requires s in docs && Wanted(s, height, keys)
    ensures |Unseen(docs, height, keys + {s.key})| < |Unseen(docs, height, keys)|
  {
    var before, after := Unseen(docs, height, keys), Unseen(docs, height, keys + {s.key});
    assert s in before && s !in after && after <= before;
    assert before == after + (before - after) && s in before - after;
  }

  // ---------------------------------------------------------------- refreshing

  ghost function BelowHeight(docs: set<SavedState>, h: int): set<SavedState> {
    set s | s in docs && s.height < h
  }

  /** The newest version is the only one at its height. */
  lemma NewestUnique(docs: set<SavedState>, key: string, s: SavedState, t: SavedState)
    requires Stored(docs) && Newest(docs, key, s) && Newest(docs, key, t)
    ensures s == t
  {}

  /** A design whose newest version was saved since the last load, but below the height refreshed from. */
  ghost predicate Missed(docs: set<SavedState>, known: int, from: int, c: CurrencyID) {
    exists s :: Newest(docs, DesignKey(c), s) && known <= s.height < from
  }

  ghost predicate SameAt<V>(m: map<CurrencyID, V>, n: map<CurrencyID, V>, c: CurrencyID) {
    (c in m <==> c in n) && (c in n ==> m[c] == n[c])
  }

  /**
    A pool that showed everything below height known, refreshed with the designs at or above from,
    shows what a full load would show, except for designs saved in between.
  */
  lemma RefreshMeaning(docs: set<SavedState>, known: int, from: int, lowest: int, c: CurrencyID,
                       before: map<CurrencyID, DesignState>, refresh: map<CurrencyID, DesignState>, full: map<CurrencyID, DesignState>)
    requires Stored(docs) && forall s :: s in docs ==> s.height >= lowest
    requires Latest(before, BelowHeight(docs, known), lowest)
    requires Latest(refresh, docs, from) && Latest(full, docs, lowest)
    ensures SameAt(before + refresh, full, c) <==> !Missed(docs, known, from, c)
  {
    hide IsDesignKey, DesignKey, Newest, Latest, Stored;
    var earlier := BelowHeight(docs, known);
    if HasVersion(docs, c, lowest) {
      var s := NewestExists(docs, c, lowest);
      LatestAt(refresh, docs, from, c, s);
      LatestAt(full, docs, lowest, c, s);
      forall t | Newest(docs, DesignKey(c), t) ensures t == s { NewestUnique(docs, DesignKey(c), s, t); }
      StoredBelow(docs, known);
      if s.height < known {
        NewestBelow(docs, known, c, s);
        LatestAt(before, earlier, lowest, c, s);
      } else {
        OlderBelow(docs, known, before, lowest, c);
      }
    } else {
      NoVersion(docs, known, from, lowest, c, before, refresh, full);
    }
  }

  lemma {:induction false} Highest(docs: set<SavedState>) returns (s: SavedState)
    requires docs != {}
    ensures s in docs && forall t :: t in docs ==> t.height <= s.height
  {
    s :| s in docs;
    if docs != {s} {
      var t := Highest(docs - {s});
      if t.height > s.height { s := t; }
    }
  }

  lemma NewestExists(docs: set<SavedState>, c: CurrencyID, height: int) returns (s: SavedState)
    requires HasVersion(docs, c, height)
    ensures Newest(docs, DesignKey(c), s) && s.height >= height
  {
    var versions := set t | t in docs && t.key == DesignKey(c);
    var t :| t in docs && t.key == DesignKey(c) && t.height >= height;
    assert t in versions;
    s := Highest(versions);
  }

  lemma LatestAt(loaded: map<CurrencyID, DesignState>, docs: set<SavedState>, height: int, c: CurrencyID, s: SavedState)
    requires Stored(docs) && Latest(loaded, docs, height) && Newest(docs, DesignKey(c), s)
    ensures c in loaded <==> s.height >= height
    ensures c in loaded ==> s.value.DesignValue? && loaded[c] == DesignState(s.height, s.value.design)
  {}

  lemma StoredBelow(docs: set<SavedState>, known: int)
    requires Stored(docs)
    ensures Stored(BelowHeight(docs, known))
  {
    hide IsDesignKey, DesignKey;
  }

  lemma NewestBelow(docs: set<SavedState>, known: int, c: CurrencyID, s: SavedState)
    requires Newest(docs, DesignKey(c), s) && s.height < known
    ensures Newest(BelowHeight(docs, known), DesignKey(c), s)
  {
    hide DesignKey;
  }

  /** What an older load shows is older. */
  lemma OlderBelow(docs: set<SavedState>, known: int, before: map<CurrencyID, DesignState>, lowest: int, c: CurrencyID)
    requires Latest(before, BelowHeight(docs, known), lowest)
    ensures c in before ==> before[c].height < known
  {
    hide DesignKey, HasVersion;
  }

  lemma NoVersion(docs: set<SavedState>, known: int, from: int, lowest: int, c: CurrencyID,
                  before: map<CurrencyID, DesignState>, refresh: map<CurrencyID, DesignState>, full: map<CurrencyID, DesignState>)
    requires forall s :: s in docs ==> s.height >= lowest
    requires Latest(before, BelowHeight(docs, known), lowest)
    requires Latest(refresh, docs, from) && Latest(full, docs, lowest)
    requires !HasVersion(docs, c, lowest)
    ensures c !in before && c !in refresh && c !in full && !Missed(docs, known, from, c)
  {
    hide DesignKey, VersionIs;
  }

  lemma SameEverywhere<V>(m: map<CurrencyID, V>, n: map<CurrencyID, V>)
    ensures m == n <==> forall c :: SameAt(m, n, c)
  {
    if forall c :: SameAt(m, n, c) {
      forall c ensures c in m <==> c in n
        ensures c in m ==> m[c] == n[c]
      {
        assert SameAt(m, n, c);
      }
    }
  }

  /** Refreshing from any height up to the first new block is as good as a full load. */
  lemma RefreshIsReload(docs: set<SavedState>, known: int, from: int, lowest: int,
                        before: map<CurrencyID, DesignState>, refresh: map<CurrencyID, DesignState>, full: map<CurrencyID, DesignState>)
    requires Stored(docs) && forall s :: s in docs ==> s.height >= lowest
    requires Latest(before, BelowHeight(docs, known), lowest)
    requires Latest(refresh, docs, from) && Latest(full, docs, lowest)
    ensures before + refresh == full <==> forall c :: !Missed(docs, known, from, c)
    ensures from <= known ==> before + refresh == full
  {
    assert from <= known ==> forall c :: !Missed(docs, known, from, c);
    hide Stored, Latest, Missed, SameAt, BelowHeight;
    forall c ensures SameAt(before + refresh, full, c) <==> !Missed(docs, known, from, c) {
      RefreshMeaning(docs, known, from, lowest, c, before, refresh, full);
    }
    SameEverywhere(before + refresh, full);
  }
}
