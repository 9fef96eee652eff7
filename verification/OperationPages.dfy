/** Listing operations page by page: each page carries the offset of the next. */
module OperationPages {
  import opened Prelude
  import opened Feeers
  import opened StateKeys
  import opened Offsets

  const MAX_LIMIT: int := 50

  /** An indexed operation: the index is its place in its block. */
  datatype OperationDoc = OperationDoc(
    fact: string, height: int, index: nat, addresses: seq<string>,
    confirmedAt: int, inState: bool, reason: string)
  {
    function At(): Offset {
      Offset(height, index)
    }
  }

  datatype Query = AllOperations | OfAddress(a: Address) | AtHeight(h: int) {
    predicate Selects(d: OperationDoc) {
      match this
      case AllOperations => true
      case OfAddress(a) => AddressPrefix(a) in d.addresses
      case AtHeight(h) => d.height == h
    }
  }

  type DocFilter = OperationDoc -> bool

  // ---------------------------------------------------------------- filters

  /** The $or of both offset filters: another height, or the same height and another index. */
  predicate PastOffset(d: OperationDoc, o: Offset, reverse: bool) {
    if reverse then d.height < o.height || (d.height == o.height && d.index < o.index)
    else d.height > o.height || (d.height == o.height && d.index > o.index)
  }

  /** buildOperationsFilterByAddress */
  function FilterByAddress(a: Address, offset: string, reverse: bool): Option<DocFilter> {
    if offset == "" then Some((d: OperationDoc) => AddressPrefix(a) in d.addresses)
    else
      var o := ParseOffset(offset);
      if o.None? then None
      else Some((d: OperationDoc) => AddressPrefix(a) in d.addresses && PastOffset(d, o.value, reverse))
  }

  /** buildOperationsFilterByOffset */
  function FilterByOffset(offset: string, reverse: bool): Option<DocFilter> {
    if offset == "" then Some((d: OperationDoc) => true)
    else
      var o := ParseOffset(offset);
      if o.None? then None else Some((d: OperationDoc) => PastOffset(d, o.value, reverse))
  }

  /** buildOperationsByHeightFilterByOffset: here the offset is an index alone. */
  function FilterByHeight(height: int, offset: string, reverse: bool): Option<DocFilter> {
    if offset == "" then Some((d: OperationDoc) => d.height == height)
    else
      var u := ParseUint(offset);
      if u.None? then None
      else Some((d: OperationDoc) => d.height == height && if reverse then d.index < u.value else d.index > u.value)
  }

  function Filter(q: Query, offset: string, reverse: bool): Option<DocFilter> {
    match q
    case AllOperations => FilterByOffset(offset, reverse)
    case OfAddress(a) => FilterByAddress(a, offset, reverse)
    case AtHeight(h) => FilterByHeight(h, offset, reverse)
  }

  /** nextOffsetOfOperations and nextOffsetOfOperationsByHeight: the position of the last operation shown. */
  function NextOffset(q: Query, page: seq<OperationDoc>): string {
    if page == [] then ""
    else
      var last := page[|page| - 1];
      if q.AtHeight? then FormatNat(last.index) else BuildOffset(last.At())
  }

  // ---------------------------------------------------------------- order

  predicate Earlier(a: Offset, b: Offset) {
    a.height < b.height || (a.height == b.height && a.index < b.index)
  }

  /** The order results come in. */
  predicate Precedes(a: Offset, b: Offset, reverse: bool) {
    if reverse then Earlier(b, a) else Earlier(a, b)
  }

  /** Where an offset string points to, for a query. */
  function Cursor(q: Query, offset: string): Option<Offset> {
    if q.AtHeight? then
      var u := ParseUint(offset);
      if u.None? then None else Some(Offset(q.h, u.value))
    else ParseOffset(offset)
  }

  /** The operations a query still has to show from an offset on. */
  ghost predicate Remaining(d: OperationDoc, q: Query, offset: string, reverse: bool) {
    q.Selects(d) && (offset == "" || (Cursor(q, offset).Some? && Precedes(Cursor(q, offset).value, d.At(), reverse)))
  }

  /** An offset is refused exactly when it does not parse; else the filter keeps what remains. */
  lemma FilterMeaning(q: Query, offset: string, reverse: bool)
    ensures Filter(q, offset, reverse).None? <==> offset != "" && Cursor(q, offset).None?
    ensures Filter(q, offset, reverse).Some? ==>
              forall d :: Filter(q, offset, reverse).value(d) <==> Remaining(d, q, offset, reverse)
  {
    hide ParseOffset, ParseUint, AddressPrefix;
  }

  /** The next offset points at the last operation of the page. */
  lemma NextOffsetMeaning(q: Query, page: seq<OperationDoc>)
    requires page != [] && q.Selects(page[|page| - 1]) && Representable(page[|page| - 1].At())
    ensures NextOffset(q, page) != ""
    ensures Cursor(q, NextOffset(q, page)) == Some(page[|page| - 1].At())
  {
    var last := page[|page| - 1];
    if q.AtHeight? {
      FormatNatValue(last.index);
    } else {
      OffsetRoundTrip(last.At());
    }
  }

  // ---------------------------------------------------------------- sorted results

  ghost predicate Apart(docs: set<OperationDoc>) {
    forall d, e :: d in docs && e in docs && d.At() == e.At() ==> d == e
  }

  ghost predicate Ordered(s: seq<OperationDoc>, reverse: bool) {
    forall i, j :: 0 <= i < j < |s| ==> Precedes(s[i].At(), s[j].At(), reverse)
  }

  ghost function Docs(s: seq<OperationDoc>): set<OperationDoc> {
    set d | d in s
  }

  ghost predicate First(docs: set<OperationDoc>, d: OperationDoc, reverse: bool) {
    d in docs && forall e :: e in docs && e != d ==> Precedes(d.At(), e.At(), reverse)
  }

  lemma {:induction false} FirstExists(docs: set<OperationDoc>, reverse: bool) returns (d: OperationDoc)
    requires docs != {} && Apart(docs)
    ensures First(docs, d, reverse)
  {
    d :| d in docs;
    if docs != {d} {
      var e := FirstExists(docs - {d}, reverse);
      if Precedes(e.At(), d.At(), reverse) { d := e; }
    }
  }

  /** Find with a sort on height and index: the documents in order, first the first. */
  ghost function Sorted(docs: set<OperationDoc>, reverse: bool): (s: seq<OperationDoc>)
    requires Apart(docs)
    ensures Ordered(s, reverse) && Docs(s) == docs
  {
    if docs == {} then []
    else
      assert exists d :: First(docs, d, reverse) by { var d := FirstExists(docs, reverse); }
      var d :| First(docs, d, reverse);
      var rest := Sorted(docs - {d}, reverse);
      FirstThenRest(docs, d, rest, reverse);
      [d] + rest
  }

  lemma FirstThenRest(docs: set<OperationDoc>, d: OperationDoc, rest: seq<OperationDoc>, reverse: bool)
    requires First(docs, d, reverse) && Ordered(rest, reverse) && Docs(rest) == docs - {d}
    ensures Ordered([d] + rest, reverse) && Docs([d] + rest) == docs
  {
    assert forall e :: e in rest ==> e in Docs(rest);
    var s := [d] + rest;
    forall i, j | 0 <= i < j < |s| ensures Precedes(s[i].At(), s[j].At(), reverse) {
      assert s[j] == rest[j - 1] && s[j] in rest;
      if i > 0 { assert s[i] == rest[i - 1]; }
    }
    assert forall e :: e in Docs(s) <==> e == d || e in Docs(rest);
  }

  lemma SomeDocs(s: seq<OperationDoc>)
    ensures s != [] ==> Docs(s) != {}
  {
    if s != [] { assert s[0] in Docs(s); }
  }

  /** There is only one order, so the database has no choice. */
  lemma {:induction false} SortedUnique(s: seq<OperationDoc>, t: seq<OperationDoc>, reverse: bool)
    requires Ordered(s, reverse) && Ordered(t, reverse) && Docs(s) == Docs(t)
    ensures s == t
  {
    SomeDocs(s);
    SomeDocs(t);
    if s != [] {
      assert s[0] in Docs(t) && t != [];
      assert t[0] in Docs(s);
      assert s[0] == t[0];
      TailDocs(s, reverse);
      TailDocs(t, reverse);
      SortedUnique(s[1..], t[1..], reverse);
    }
  }

  lemma TailDocs(s: seq<OperationDoc>, reverse: bool)
    requires Ordered(s, reverse) && s != []
    ensures Docs(s[1..]) == Docs(s) - {s[0]}
  {
    assert s == [s[0]] + s[1..];
  }

  /** The limit of a page: none for zero and below, and never more than MAX_LIMIT. */
  function Limited(s: seq<OperationDoc>, limit: int): seq<OperationDoc> {
    if limit <= 0 then s
    else
      var n := if limit > MAX_LIMIT then MAX_LIMIT else limit;
      if |s| <= n then s else s[..n]
  }

  ghost function Matching(docs: set<OperationDoc>, f: DocFilter): set<OperationDoc> {
    set d | d in docs && f(d)
  }

  /** Database.Operations and Database.OperationsByAddress; None when the offset is refused. */
  ghost function Page(docs: set<OperationDoc>, q: Query, offset: string, reverse: bool, limit: int): Option<seq<OperationDoc>>
    requires Apart(docs)
  {
    var f := Filter(q, offset, reverse);
    if f.None? then None else Some(Limited(Sorted(Matching(docs, f.value), reverse), limit))
  }

  /** How many operations a page shows: at most the limit and at most 50, and fewer only if no more are left. */
  lemma PageLength(docs: set<OperationDoc>, q: Query, offset: string, reverse: bool, limit: int)
    requires Apart(docs) && Page(docs, q, offset, reverse, limit).Some?
    ensures var page, rest := Page(docs, q, offset, reverse, limit).value, |Rest(docs, q, offset, reverse)|;
            && |page| <= rest
            && (limit <= 0 ==> |page| == rest)
            && (limit > 0 ==> |page| <= limit && |page| <= 50 && (|page| == limit || |page| == 50 || |page| == rest))
  {
    PageMeaning(docs, q, offset, reverse, limit);
    hide Page, Sorted, Rest;
    SortedLength(Rest(docs, q, offset, reverse), Sorted(Rest(docs, q, offset, reverse), reverse), reverse);
  }

  /** In order there are no repetitions. */
  lemma {:induction false} SortedLength(docs: set<OperationDoc>, s: seq<OperationDoc>, reverse: bool)
    requires Ordered(s, reverse) && Docs(s) == docs
    ensures |s| == |docs|
  {
    SomeDocs(s);
    if s != [] {
      TailDocs(s, reverse);
      assert s[0] in docs;
      SortedLength(docs - {s[0]}, s[1..], reverse);
    }
  }

  // ---------------------------------------------------------------- following the pages

  ghost function Rest(docs: set<OperationDoc>, q: Query, offset: string, reverse: bool): set<OperationDoc> {
    set d | d in docs && Remaining(d, q, offset, reverse)
  }

  ghost predicate Indexed(docs: set<OperationDoc>) {
    Apart(docs) && forall d :: d in docs ==> Representable(d.At())
  }

  lemma PageMeaning(docs: set<OperationDoc>, q: Query, offset: string, reverse: bool, limit: int)
    requires Apart(docs)
    ensures Page(docs, q, offset, reverse, limit).Some? <==> offset == "" || Cursor(q, offset).Some?
    ensures Page(docs, q, offset, reverse, limit).Some? ==>
              Page(docs, q, offset, reverse, limit).value == Limited(Sorted(Rest(docs, q, offset, reverse), reverse), limit)
  {
    FilterMeaning(q, offset, reverse);
    hide Filter, Remaining, Cursor;
    var f := Filter(q, offset, reverse);
    if f.Some? { assert Matching(docs, f.value) == Rest(docs, q, offset, reverse); }
  }

  /** After a page that ends before position n of the results, the results from n on remain. */
  lemma RestAfter(docs: set<OperationDoc>, q: Query, offset: string, reverse: bool, n: nat)
    requires Indexed(docs)
    requires var s := Sorted(Rest(docs, q, offset, reverse), reverse); 0 < n <= |s|
    ensures var s := Sorted(Rest(docs, q, offset, reverse), reverse);
            var next := NextOffset(q, s[..n]);
            && next != "" && Cursor(q, next).Some?
            && Sorted(Rest(docs, q, next, reverse), reverse) == s[n..]
            && Rest(docs, q, next, reverse) < Rest(docs, q, offset, reverse)
  {
    hide NextOffset, Cursor, Remaining, Representable, Sorted, Rest;
    var s := Sorted(Rest(docs, q, offset, reverse), reverse);
    var last := s[..n][n - 1];
    assert last in Docs(s);
    RestSelected(docs, q, offset, reverse, last);
    NextOffsetMeaning(q, s[..n]);
    var next := NextOffset(q, s[..n]);
    assert Docs(s[n..]) == Rest(docs, q, next, reverse) by {
      forall d ensures d in s[n..] <==> d in Rest(docs, q, next, reverse) {
        RestMember(docs, q, offset, next, reverse, s, n, d);
      }
    }
    RestApart(docs, q, next, reverse);
    SortedUnique(Sorted(Rest(docs, q, next, reverse), reverse), s[n..], reverse);
    assert forall d :: d in s[n..] ==> d in Docs(s);
    assert last !in s[n..];
  }

  lemma RestSelected(docs: set<OperationDoc>, q: Query, offset: string, reverse: bool, d: OperationDoc)
    requires d in Rest(docs, q, offset, reverse)
    ensures d in docs && q.Selects(d)
  {
    hide Query.Selects, Cursor;
  }

  lemma RestApart(docs: set<OperationDoc>, q: Query, offset: string, reverse: bool)
    requires Apart(docs)
    ensures Apart(Rest(docs, q, offset, reverse))
  {
    hide Remaining;
  }

  lemma RestMember(docs: set<OperationDoc>, q: Query, offset: string, next: string, reverse: bool,
                   s: seq<OperationDoc>, n: nat, d: OperationDoc)
    requires Ordered(s, reverse) && Docs(s) == Rest(docs, q, offset, reverse)
    requires 0 < n <= |s| && next != "" && Cursor(q, next) == Some(s[n - 1].At())
    ensures d in s[n..] <==> d in Rest(docs, q, next, reverse)
  {
    hide Cursor, Query.Selects;
    assert s[n - 1] in Docs(s);
    if d in s[n..] {
      var i :| n <= i < |s| && s[i] == d;
      assert d in Docs(s);
    }
    if d in Rest(docs, q, next, reverse) {
      assert d in Docs(s);
      var i :| 0 <= i < |s| && s[i] == d;
      assert i >= n;
      assert s[n..][i - n] == d;
    }
  }

  /** A client that keeps asking for the next page until there is nothing more to show. */
  ghost function Follow(docs: set<OperationDoc>, q: Query, offset: string, reverse: bool, limit: int): seq<OperationDoc>
    requires Indexed(docs)
    decreases |Rest(docs, q, offset, reverse)|
  {
    var page := Page(docs, q, offset, reverse, limit);
    if page.None? || page.value == [] then []
    else
      assert |Rest(docs, q, NextOffset(q, page.value), reverse)| < |Rest(docs, q, offset, reverse)| by {
        NextPage(docs, q, offset, reverse, limit);
      }
      page.value + Follow(docs, q, NextOffset(q, page.value), reverse, limit)
  }

  lemma NextPage(docs: set<OperationDoc>, q: Query, offset: string, reverse: bool, limit: int)
    requires Indexed(docs) && Page(docs, q, offset, reverse, limit).Some?
    requires Page(docs, q, offset, reverse, limit).value != []
    ensures var page := Page(docs, q, offset, reverse, limit).value;
            var s := Sorted(Rest(docs, q, offset, reverse), reverse);
            var next := NextOffset(q, page);
            && |page| <= |s| && page == s[..|page|]
            && Cursor(q, next).Some?
            && Sorted(Rest(docs, q, next, reverse), reverse) == s[|page|..]
            && |Rest(docs, q, next, reverse)| < |Rest(docs, q, offset, reverse)|
  {
    PageMeaning(docs, q, offset, reverse, limit);
    hide Page, NextOffset, Cursor, Rest, Apart, Representable, Ordered;
    var page := Page(docs, q, offset, reverse, limit).value;
    var s := Sorted(Rest(docs, q, offset, reverse), reverse);
    assert s[..|s|] == s;
    RestAfter(docs, q, offset, reverse, |page|);
    ProperSubset(Rest(docs, q, NextOffset(q, page), reverse), Rest(docs, q, offset, reverse));
  }

  lemma ProperSubset<T>(a: set<T>, b: set<T>)
    requires a < b
    ensures |a| < |b|
  {
    assert b == a + (b - a);
  }

  lemma FollowStep(docs: set<OperationDoc>, q: Query, offset: string, reverse: bool, limit: int)
    requires Indexed(docs) && Page(docs, q, offset, reverse, limit).Some?
    ensures var page := Page(docs, q, offset, reverse, limit).value;
            Follow(docs, q, offset, reverse, limit) ==
            if page == [] then [] else page + Follow(docs, q, NextOffset(q, page), reverse, limit)
  {
    hide Page, NextOffset, Rest, Indexed;
  }

  /**
    Following the next offsets shows exactly the operations that remain after the first offset, in
    order, whatever the limit.
  */
  lemma {:induction false} FollowShowsRest(docs: set<OperationDoc>, q: Query, offset: string, reverse: bool, limit: int)
    requires Indexed(docs) && (offset == "" || Cursor(q, offset).Some?)
    ensures Follow(docs, q, offset, reverse, limit) == Sorted(Rest(docs, q, offset, reverse), reverse)
    decreases |Rest(docs, q, offset, reverse)|
  {
    PageMeaning(docs, q, offset, reverse, limit);
    FollowStep(docs, q, offset, reverse, limit);
    hide Page, NextOffset, Cursor, Sorted, Rest, Representable, Apart, Ordered, Docs, Follow, Limited;
    hide Query.Selects, Remaining, Indexed;
    var page := Page(docs, q, offset, reverse, limit).value;
    var s := Sorted(Rest(docs, q, offset, reverse), reverse);
    if page != [] {
      NextPage(docs, q, offset, reverse, limit);
      FollowShowsRest(docs, q, NextOffset(q, page), reverse, limit);
      assert s == s[..|page|] + s[|page|..];
    }
  }

  /** From the empty offset: every selected operation exactly once, in (height, index) order or its reverse. */
  lemma FollowListsEverything(docs: set<OperationDoc>, q: Query, reverse: bool, limit: int)
    requires Indexed(docs)
    ensures var s := Follow(docs, q, "", reverse, limit);
            && Ordered(s, reverse)
            && (forall i, j :: 0 <= i < j < |s| ==> s[i] != s[j])
            && (forall d :: d in s <==> d in docs && q.Selects(d))
  {
    FollowShowsRest(docs, q, "", reverse, limit);
    hide Follow, Query.Selects;
    var s := Follow(docs, q, "", reverse, limit);
    assert forall d :: d in s <==> d in Docs(s);
  }
}
