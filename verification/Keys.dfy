/** Weighted multi-key accounts: canonical order, hash, equality and the signature threshold. */
module AccountKeys {
  import opened Prelude

  type Bytes = seq<nat>
  type Publickey = Bytes

  /** The hash is an arbitrary but fixed function of the bytes. */
  const SHA256: Bytes -> string

  /** Which bytes are a public key, and which strings a hash, is decided by the node software. */
  const IsPublickey: Bytes -> bool
  const IsHash: string -> bool

  const MAX_KEYS: nat := 10
  const UINT64_MAX: nat := 0xFFFF_FFFF_FFFF_FFFF

  function LittleEndian(u: nat, n: nat): Bytes {
    if n == 0 then [] else [u % 256] + LittleEndian(u / 256, n - 1)
  }

  /** Eight little-endian bytes of a uint. */
  function UintToBytes(u: nat): Bytes {
    LittleEndian(u, 8)
  }

  /** Reading bytes back, the least significant first. */
  function ValueOf(b: Bytes): nat {
    if b == [] then 0 else b[0] + 256 * ValueOf(b[1..])
  }

  lemma {:induction false} LittleEndianValue(u: nat, n: nat)
    ensures |LittleEndian(u, n)| == n && forall i :: 0 <= i < n ==> LittleEndian(u, n)[i] < 256
    ensures ValueOf(LittleEndian(u, n)) == u % Pow256(n)
  {
    if n > 0 {
      LittleEndianValue(u / 256, n - 1);
      assert LittleEndian(u, n)[1..] == LittleEndian(u / 256, n - 1);
      Digits(u, Pow256(n - 1));
    }
  }

  function Pow256(n: nat): (p: nat)
    ensures p > 0
  {
    if n == 0 then 1 else 256 * Pow256(n - 1)
  }

  lemma Digits(u: nat, p: nat)
    requires p > 0
    ensures u % 256 + 256 * ((u / 256) % p) == u % (256 * p)
  {
    var q, r := (u / 256) / p, (u / 256) % p;
    assert u / 256 == q * p + r;
    assert u == 256 * (q * p + r) + u % 256;
    assert 256 * (q * p) == q * (256 * p);
    Remainder(u, 256 * p, q, 256 * r + u % 256);
  }

  lemma Remainder(u: nat, d: nat, q: nat, r: nat)
    requires d > 0 && u == q * d + r && r < d
    ensures u % d == r
  {
    var q2, r2 := u / d, u % d;
    assert u == q2 * d + r2;
    if q2 < q { NoLess(q2 + 1, q, d); }
    if q < q2 { NoLess(q + 1, q2, d); }
  }

  lemma NoLess(m: int, n: int, k: int)
    requires m <= n && k >= 0
    ensures m * k <= n * k
  {}

  lemma EightBytes()
    ensures Pow256(8) == UINT64_MAX + 1
  {
    assert Pow256(2) == 256 * Pow256(1) && Pow256(1) == 256 * Pow256(0);
    assert Pow256(4) == 256 * Pow256(3) && Pow256(3) == 256 * Pow256(2);
    assert Pow256(6) == 256 * Pow256(5) && Pow256(5) == 256 * Pow256(4);
    assert Pow256(8) == 256 * Pow256(7) && Pow256(7) == 256 * Pow256(6);
  }

  /** Eight bytes hold every 64-bit number, and give it back. */
  lemma UintRoundTrip(u: nat)
    requires u <= UINT64_MAX
    ensures |UintToBytes(u)| == 8 && ValueOf(UintToBytes(u)) == u
    ensures forall i :: 0 <= i < 8 ==> UintToBytes(u)[i] < 256
  {
    hide LittleEndian, ValueOf, Pow256;
    LittleEndianValue(u, 8);
    EightBytes();
  }

  datatype Key = Key(k: Publickey, w: nat) {
    predicate IsValid() { 1 <= w <= 100 && IsPublickey(k) }

    function ToBytes(): Bytes { k + UintToBytes(w) }
  }

  datatype Keys = Keys(h: string, keys: seq<Key>, threshold: nat)

  // ---------------------------------------------------------------- order on public keys

  /** bytes.Compare(a, b) < 0 */
  predicate BytesLess(a: Bytes, b: Bytes) {
    if b == [] then false
    else if a == [] then true
    else a[0] < b[0] || (a[0] == b[0] && BytesLess(a[1..], b[1..]))
  }

  /** The first place where the bytes differ decides; a proper prefix comes first. */
  ghost predicate Lexicographic(a: Bytes, b: Bytes) {
    || (|a| < |b| && a == b[..|a|])
    || exists i :: DiffersAt(a, b, i)
  }

  lemma {:induction false} BytesLessMeaning(a: Bytes, b: Bytes)
    ensures BytesLess(a, b) <==> Lexicographic(a, b)
  {
    if a != [] && b != [] {
      BytesLessMeaning(a[1..], b[1..]);
      LexicographicTail(a, b);
    }
  }

  lemma PrefixTail(a: Bytes, b: Bytes, i: nat)
    requires i < |a| && i < |b|
    ensures a[..i + 1] == b[..i + 1] <==> a[0] == b[0] && a[1..][..i] == b[1..][..i]
  {
    assert a[..i + 1] == [a[0]] + a[1..][..i] && b[..i + 1] == [b[0]] + b[1..][..i];
  }

  ghost predicate DiffersAt(a: Bytes, b: Bytes, i: int) {
    0 <= i < |a| && i < |b| && a[..i] == b[..i] && a[i] < b[i]
  }

  lemma LexicographicTail(a: Bytes, b: Bytes)
    requires a != [] && b != []
    ensures Lexicographic(a, b) <==> a[0] < b[0] || (a[0] == b[0] && Lexicographic(a[1..], b[1..]))
  {
    var c, d := a[1..], b[1..];
    assert a[..0] == b[..0];
    if |a| < |b| {
      PrefixTail(a, b, |a| - 1);
      assert a == a[..|a|] && c == c[..|c|];
    }
    if Lexicographic(a, b) && !(|a| < |b| && a == b[..|a|]) {
      var i :| DiffersAt(a, b, i);
      if i > 0 {
        PrefixTail(a, b, i - 1);
        assert DiffersAt(c, d, i - 1);
      }
    }
    if a[0] < b[0] { assert DiffersAt(a, b, 0); }
    if i :| a[0] == b[0] && DiffersAt(c, d, i) {
      PrefixTail(a, b, i);
      assert DiffersAt(a, b, i + 1);
    }
  }

  lemma {:induction false} BytesLessTotal(a: Bytes, b: Bytes)
    ensures a == b || BytesLess(a, b) || BytesLess(b, a)
    ensures !(BytesLess(a, b) && BytesLess(b, a))
    ensures !BytesLess(a, a)
  {
    if a != [] && b != [] {
      BytesLessTotal(a[1..], b[1..]);
      BytesLessTotal(a[1..], a[1..]);
      assert a == [a[0]] + a[1..] && b == [b[0]] + b[1..];
    } else if a != [] {
      BytesLessTotal(a[1..], a[1..]);
    }
  }

  lemma {:induction false} BytesLessTransitive(a: Bytes, b: Bytes, c: Bytes)
    requires !BytesLess(b, a) && !BytesLess(c, b)
    ensures !BytesLess(c, a)
  {
    if a != [] && b != [] && c != [] && a[0] == b[0] == c[0] {
      BytesLessTransitive(a[1..], b[1..], c[1..]);
    }
  }

  predicate Sorted(s: seq<Key>) {
    forall i, j :: 0 <= i < j < |s| ==> !BytesLess(s[j].k, s[i].k)
  }

  predicate Distinct(s: seq<Key>) {
    forall i, j :: 0 <= i < j < |s| ==> s[i].k != s[j].k
  }

  lemma SamePublickey(s: seq<Key>, x: Key, y: Key)
    requires Distinct(s) && x in s && y in s && x.k == y.k
    ensures x == y
  {}

  /** Duplicate-free keys have one sorted arrangement only. */
  lemma {:induction false} SortedUnique(a: seq<Key>, b: seq<Key>)
    requires Sorted(a) && Sorted(b) && multiset(a) == multiset(b) && Distinct(a)
    ensures a == b
  {
    if a == [] {
      assert |b| == |multiset(b)| == |multiset(a)| == 0;
    } else {
      SameHead(a, b);
      TailMultiset(a);
      TailMultiset(b);
      SortedUnique(a[1..], b[1..]);
    }
  }

  lemma TailMultiset(s: seq<Key>)
    requires s != []
    ensures multiset(s[1..]) == multiset(s) - multiset{s[0]}
  {
    assert s == [s[0]] + s[1..];
  }

  lemma SameHead(a: seq<Key>, b: seq<Key>)
    requires Sorted(a) && Sorted(b) && multiset(a) == multiset(b) && Distinct(a) && a != []
    ensures b != [] && a[0] == b[0]
  {
    assert a[0] in multiset(b);
    assert b[0] in multiset(a);
    BytesLessTotal(a[0].k, b[0].k);
    assert !BytesLess(a[0].k, b[0].k) by { HeadIsLeast(b, a[0]); }
    assert !BytesLess(b[0].k, a[0].k) by { HeadIsLeast(a, b[0]); }
    SamePublickey(a, a[0], b[0]);
  }

  lemma HeadIsLeast(s: seq<Key>, x: Key)
    requires Sorted(s) && x in s
    ensures !BytesLess(x.k, s[0].k)
  {
    var i :| 0 <= i < |s| && s[i] == x;
    if i == 0 { BytesLessTotal(x.k, x.k); }
  }

  function Insert(x: Key, s: seq<Key>): seq<Key> {
    if s == [] then [x]
    else if BytesLess(s[0].k, x.k) then [s[0]] + Insert(x, s[1..])
    else [x] + s
  }

  /** The keys in the order their bytes are hashed in. */
  function SortedKeys(s: seq<Key>): seq<Key> {
    if s == [] then [] else Insert(s[0], SortedKeys(s[1..]))
  }

  lemma {:induction false} InsertKeeps(x: Key, s: seq<Key>)
    requires Sorted(s)
    ensures Sorted(Insert(x, s)) && multiset(Insert(x, s)) == multiset(s) + multiset{x}
  {
    if s != [] {
      assert s == [s[0]] + s[1..];
      if BytesLess(s[0].k, x.k) {
        var t := Insert(x, s[1..]);
        InsertKeeps(x, s[1..]);
        hide BytesLess;
        forall j | 0 <= j < |t| ensures !BytesLess(t[j].k, s[0].k) {
          assert t[j] in multiset(t);
          if t[j] == x { BytesLessTotal(s[0].k, x.k); } else { HeadIsLeast(s, t[j]); }
        }
      } else {
        hide BytesLess;
        forall j | 0 <= j < |s| ensures !BytesLess(s[j].k, x.k) {
          HeadIsLeast(s, s[j]);
          BytesLessTransitive(x.k, s[0].k, s[j].k);
        }
      }
    }
  }

  lemma {:induction false} SortedKeysSorted(s: seq<Key>)
    ensures Sorted(SortedKeys(s)) && multiset(SortedKeys(s)) == multiset(s)
    ensures |SortedKeys(s)| == |s|
  {
    if s != [] {
      assert s == [s[0]] + s[1..];
      SortedKeysSorted(s[1..]);
      InsertKeeps(s[0], SortedKeys(s[1..]));
    }
    assert |SortedKeys(s)| == |multiset(SortedKeys(s))| == |s|;
  }

  lemma MultisetDistinct(a: seq<Key>, b: seq<Key>)
    requires multiset(a) == multiset(b) && Distinct(a)
    ensures Distinct(b)
  {
    forall i, j | 0 <= i < j < |b| ensures b[i].k != b[j].k {
      if b[i].k == b[j].k {
        assert b[i] in multiset(a) && b[j] in multiset(a);
        SamePublickey(a, b[i], b[j]);
        assert b == b[..i] + [b[i]] + b[i + 1..j] + [b[j]] + b[j + 1..];
        assert multiset(b)[b[i]] >= 2;
        AtMostOnce(a, b[i]);
      }
    }
  }

  lemma {:induction false} AtMostOnce(s: seq<Key>, x: Key)
    requires Distinct(s)
    ensures multiset(s)[x] <= 1
  {
    if s != [] {
      assert s == [s[0]] + s[1..];
      AtMostOnce(s[1..], x);
    }
  }

  // ---------------------------------------------------------------- bytes and hash

  function Concat(s: seq<Key>): Bytes {
    if s == [] then [] else s[0].ToBytes() + Concat(s[1..])
  }

  function Encode(s: seq<Key>, threshold: nat): Bytes {
    Concat(s) + UintToBytes(threshold)
  }

  function GenerateHash(s: seq<Key>, threshold: nat): string {
    SHA256(Encode(SortedKeys(s), threshold))
  }

  /** Hash, hence address, do not depend on the order in which distinct keys are listed. */
  lemma HashOrderFree(a: seq<Key>, b: seq<Key>, threshold: nat)
    requires Distinct(a) && multiset(a) == multiset(b)
    ensures SortedKeys(a) == SortedKeys(b)
    ensures GenerateHash(a, threshold) == GenerateHash(b, threshold)
  {
    SortedKeysSorted(a);
    SortedKeysSorted(b);
    MultisetDistinct(a, SortedKeys(a));
    SortedUnique(SortedKeys(a), SortedKeys(b));
  }

  /** Weights a uint can hold. */
  predicate Weighable(s: seq<Key>) {
    forall i :: 0 <= i < |s| ==> s[i].w <= UINT64_MAX
  }

  lemma SplitAt(x: Bytes, u: Bytes, y: Bytes, v: Bytes)
    requires x + u == y + v && |x| == |y|
    ensures x == y && u == v
  {
    assert x == (x + u)[..|x|] && y == (y + v)[..|y|];
    assert u == (x + u)[|x|..] && v == (y + v)[|y|..];
  }

  lemma KeyBytesExact(x: Key, y: Key)
    requires |x.k| == |y.k| && x.w <= UINT64_MAX && y.w <= UINT64_MAX && x.ToBytes() == y.ToBytes()
    ensures x == y
  {
    hide UintToBytes, ValueOf;
    UintRoundTrip(x.w);
    UintRoundTrip(y.w);
    SplitAt(x.k, UintToBytes(x.w), y.k, UintToBytes(y.w));
  }

  lemma KeyBytesLength(x: Key)
    requires x.w <= UINT64_MAX
    ensures |x.ToBytes()| == |x.k| + 8
  {
    UintRoundTrip(x.w);
  }

  /**
    The bytes tell keys, weights and thresholds apart: for public keys of the same lengths nothing
    differs that does not show.
  */
  lemma {:induction false} EncodeExact(s: seq<Key>, x: nat, t: seq<Key>, y: nat)
    requires |s| == |t| && forall i :: 0 <= i < |s| ==> |s[i].k| == |t[i].k|
    requires Weighable(s) && Weighable(t) && x <= UINT64_MAX && y <= UINT64_MAX
    requires Encode(s, x) == Encode(t, y)
    ensures s == t && x == y
  {
    hide Key.ToBytes, UintToBytes, ValueOf;
    if s == [] {
      assert Encode(s, x) == UintToBytes(x) && Encode(t, y) == UintToBytes(y);
      UintRoundTrip(x);
      UintRoundTrip(y);
    } else {
      assert Encode(s, x) == s[0].ToBytes() + Encode(s[1..], x);
      assert Encode(t, y) == t[0].ToBytes() + Encode(t[1..], y);
      KeyBytesLength(s[0]);
      KeyBytesLength(t[0]);
      SplitAt(s[0].ToBytes(), Encode(s[1..], x), t[0].ToBytes(), Encode(t[1..], y));
      KeyBytesExact(s[0], t[0]);
      EncodeExact(s[1..], x, t[1..], y);
      assert s == [s[0]] + s[1..] && t == [t[0]] + t[1..];
    }
  }

  /** All public keys have the same length. */
  predicate Uniform(s: seq<Key>, n: nat) {
    forall i :: 0 <= i < |s| ==> |s[i].k| == n
  }

  lemma {:induction false} EncodeLength(s: seq<Key>, x: nat, n: nat)
    requires Uniform(s, n) && Weighable(s) && x <= UINT64_MAX
    ensures |Encode(s, x)| == |s| * (n + 8) + 8
  {
    hide Key.ToBytes, UintToBytes, ValueOf;
    if s == [] {
      UintRoundTrip(x);
    } else {
      KeyBytesLength(s[0]);
      assert Encode(s, x) == s[0].ToBytes() + Encode(s[1..], x);
      EncodeLength(s[1..], x, n);
      assert |s| * (n + 8) == (|s| - 1) * (n + 8) + (n + 8);
    }
  }

  /**
    Short of a collision of SHA256 on the two encodings the hash, hence the address, fixes threshold,
    public keys and weights, order aside.
  */
  lemma HashFixesKeys(a: seq<Key>, x: nat, b: seq<Key>, y: nat, n: nat)
    requires Uniform(a, n) && Uniform(b, n) && Weighable(a) && Weighable(b) && x <= UINT64_MAX && y <= UINT64_MAX
    requires var u, v := Encode(SortedKeys(a), x), Encode(SortedKeys(b), y); SHA256(u) == SHA256(v) ==> u == v
    requires Distinct(a)
    ensures GenerateHash(a, x) == GenerateHash(b, y) <==> multiset(a) == multiset(b) && x == y
  {
    SortedKeysSorted(a);
    SortedKeysSorted(b);
    if multiset(a) == multiset(b) { HashOrderFree(a, b, x); }
    hide SortedKeys, Encode, Sorted;
    if GenerateHash(a, x) == GenerateHash(b, y) {
      var s, t := SortedKeys(a), SortedKeys(b);
      Rearranged(a, s, n);
      Rearranged(b, t, n);
      EncodeLength(s, x, n);
      EncodeLength(t, y, n);
      SameCount(|s|, |t|, n + 8);
      EncodeExact(s, x, t, y);
    }
  }

  lemma Rearranged(a: seq<Key>, s: seq<Key>, n: nat)
    requires multiset(a) == multiset(s) && Uniform(a, n) && Weighable(a)
    ensures Uniform(s, n) && Weighable(s)
  {
    forall i | 0 <= i < |s| ensures |s[i].k| == n && s[i].w <= UINT64_MAX {
      assert s[i] in multiset(a);
    }
  }

  lemma SameCount(m: nat, n: nat, k: nat)
    requires k > 0 && m * k == n * k
    ensures m == n
  {
    if m < n { NoLess(m + 1, n, k); }
    if n < m { NoLess(n + 1, m, k); }
  }

  /** The first n keys are in place: none of the keys behind them is smaller. */
  predicate Selected(s: seq<Key>, n: nat) {
    forall i, j :: 0 <= i < j < |s| && i < n ==> !BytesLess(s[j].k, s[i].k)
  }

  lemma SelectStep(s: seq<Key>, t: seq<Key>, n: nat, least: nat)
    requires Selected(s, n) && n <= least < |s|
    requires forall j :: n <= j < |s| ==> !BytesLess(s[j].k, s[least].k)
    requires t == s[n := s[least]][least := s[n]]
    ensures Selected(t, n + 1) && multiset(t) == multiset(s)
  {
    assert forall j :: n <= j < |s| ==> exists i :: n <= i < |s| && t[j] == s[i];
  }

  /**
    Stands for sort.Slice on the public key bytes.  sort.Slice is not stable, so only what every
    comparison sort gives is promised; for distinct keys that fixes the result.
  */
  method SortInPlace(a: array<Key>)
    modifies a
    ensures Sorted(a[..]) && multiset(a[..]) == old(multiset(a[..]))
    ensures Distinct(old(a[..])) ==> a[..] == SortedKeys(old(a[..]))
  {
    var n := 0;
    while n < a.Length
      invariant 0 <= n <= a.Length
      invariant Selected(a[..], n)
      invariant multiset(a[..]) == old(multiset(a[..]))
    {
      var least := n;
      BytesLessTotal(a[n].k, a[n].k);
      ghost var before := a[..];
      for m := n + 1 to a.Length
        invariant n <= least < a.Length && a[..] == before
        invariant forall j :: n <= j < m ==> !BytesLess(before[j].k, before[least].k)
      {
        BytesLessTotal(a[m].k, a[least].k);
        if BytesLess(a[m].k, a[least].k) {
          forall j | n <= j < m ensures !BytesLess(a[j].k, a[m].k) {
            BytesLessTransitive(a[m].k, a[least].k, a[j].k);
          }
          BytesLessTotal(a[m].k, a[m].k);
          least := m;
        }
      }
      a[n], a[least] := a[least], a[n];
      SelectStep(before, a[..], n, least);
      n := n + 1;
    }
    if Distinct(old(a[..])) {
      SortedKeysSorted(old(a[..]));
      MultisetDistinct(old(a[..]), a[..]);
      SortedUnique(a[..], SortedKeys(old(a[..])));
    }
  }

  /** Keys.Bytes: sorts the keys in place, then joins their bytes and the threshold. */
  method KeysBytes(keys: array<Key>, threshold: nat) returns (b: Bytes)
    modifies keys
    ensures multiset(keys[..]) == old(multiset(keys[..]))
    ensures b == Encode(keys[..], threshold)
    ensures Distinct(old(keys[..])) ==> SHA256(b) == GenerateHash(old(keys[..]), threshold)
  {
    SortInPlace(keys);
    b := [];
    ghost var sorted := keys[..];
    for i := 0 to keys.Length
      invariant keys[..] == sorted
      invariant b == Concat(sorted[..i])
    {
      ConcatAppend(sorted[..i], sorted[i]);
      assert sorted[..i + 1] == sorted[..i] + [sorted[i]];
      b := b + keys[i].ToBytes();
    }
    assert sorted[..keys.Length] == sorted;
    b := b + UintToBytes(threshold);
  }

  lemma {:induction false} ConcatAppend(s: seq<Key>, x: Key)
    ensures Concat(s + [x]) == Concat(s) + x.ToBytes()
  {
    if s == [] {
      assert s + [x] == [x];
      assert Concat([x]) == x.ToBytes() + Concat([x][1..]);
    } else {
      ConcatAppend(s[1..], x);
      assert (s + [x])[1..] == s[1..] + [x];
    }
  }

  // ---------------------------------------------------------------- equality

  /** What Keys.Equal computes. */
  predicate KeysEqual(a: Keys, b: Keys) {
    a.threshold == b.threshold && SortedKeys(a.keys) == SortedKeys(b.keys)
  }

  ghost function KeySet(s: seq<Key>): set<Key> {
    set x | x in s
  }

  lemma {:induction false} DistinctMultiset(s: seq<Key>)
    requires Distinct(s)
    ensures multiset(s) == multiset(KeySet(s))
  {
    forall x ensures multiset(s)[x] == multiset(KeySet(s))[x] {
      AtMostOnce(s, x);
      assert x in s <==> x in multiset(s);
    }
  }

  lemma KeysEqualMeaning(a: Keys, b: Keys)
    requires Distinct(a.keys) && Distinct(b.keys)
    ensures KeysEqual(a, b) <==> a.threshold == b.threshold && KeySet(a.keys) == KeySet(b.keys)
  {
    if a.threshold == b.threshold {
      DistinctMultiset(a.keys);
      DistinctMultiset(b.keys);
      SortedKeysSorted(a.keys);
      SortedKeysSorted(b.keys);
      if KeySet(a.keys) == KeySet(b.keys) {
        HashOrderFree(a.keys, b.keys, a.threshold);
      } else if SortedKeys(a.keys) == SortedKeys(b.keys) {
        assert multiset(a.keys) == multiset(b.keys);
        forall x ensures x in KeySet(a.keys) <==> x in KeySet(b.keys) {
          assert x in a.keys <==> x in multiset(a.keys);
          assert x in b.keys <==> x in multiset(b.keys);
        }
      }
    }
  }

  /**
    Keys.Equal: both slices end up permuted.  Keys that compare equal have the same elements; for
    distinct public keys, which all valid keys have, the converse holds too.
  */
  method Equal(a: array<Key>, at: nat, b: array<Key>, bt: nat) returns (same: bool)
    modifies a, b
    ensures same ==> at == bt && multiset(old(a[..])) == multiset(old(b[..]))
    ensures Distinct(old(a[..])) && Distinct(old(b[..])) ==>
              (same <==> at == bt && KeySet(old(a[..])) == KeySet(old(b[..])))
    ensures multiset(a[..]) == old(multiset(a[..])) && multiset(b[..]) == old(multiset(b[..]))
  {
    ghost var x, y := Keys("", a[..], at), Keys("", b[..], bt);
    ghost var distinct := Distinct(a[..]) && Distinct(b[..]);
    if distinct { KeysEqualMeaning(x, y); }
    if at != bt {
      return false;
    }
    if a.Length != b.Length {
      SortedKeysSorted(x.keys);
      SortedKeysSorted(y.keys);
      return false;
    }
    SortInPlace(a);
    if a == b && distinct {
      MultisetDistinct(x.keys, a[..]);
      HashOrderFree(x.keys, a[..], at);
    }
    SortInPlace(b);
    same := SameElements(a, b);
  }

  method SameElements(a: array<Key>, b: array<Key>) returns (same: bool)
    requires a.Length == b.Length
    ensures same <==> a[..] == b[..]
  {
    for i := 0 to a.Length
      invariant forall j :: 0 <= j < i ==> a[j] == b[j]
    {
      if a[i] != b[i] {
        assert a[..][i] != b[..][i];
        return false;
      }
    }
    return true;
  }

  // ---------------------------------------------------------------- validity

  function TotalWeight(s: seq<Key>): nat {
    if s == [] then 0 else TotalWeight(s[..|s| - 1]) + s[|s| - 1].w
  }

  predicate Valid(ks: Keys) {
    && 1 <= ks.threshold <= 100
    && IsHash(ks.h)
    && 1 <= |ks.keys| <= MAX_KEYS
    && (forall x :: x in ks.keys ==> x.IsValid())
    && Distinct(ks.keys)
    && TotalWeight(ks.keys) >= ks.threshold
    && ks.h == GenerateHash(ks.keys, ks.threshold)
  }

  /**
    Valid keys have the same address exactly if they compare equal, short of a collision of SHA256 on
    their encodings and for public keys of one length.
  */
  lemma AddressFixesKeys(a: Keys, b: Keys, n: nat)
    requires Valid(a) && Valid(b) && Uniform(a.keys, n) && Uniform(b.keys, n)
    requires var u, v := Encode(SortedKeys(a.keys), a.threshold), Encode(SortedKeys(b.keys), b.threshold);
             SHA256(u) == SHA256(v) ==> u == v
    ensures a.h == b.h <==> a.threshold == b.threshold && KeySet(a.keys) == KeySet(b.keys)
  {
    hide Encode, SortedKeys, TotalWeight;
    assert forall i :: 0 <= i < |a.keys| ==> a.keys[i] in a.keys;
    assert forall i :: 0 <= i < |b.keys| ==> b.keys[i] in b.keys;
    HashFixesKeys(a.keys, a.threshold, b.keys, b.threshold, n);
    DistinctMultiset(a.keys);
    DistinctMultiset(b.keys);
    if multiset(a.keys) == multiset(b.keys) { assert forall x :: x in a.keys <==> x in multiset(a.keys); }
  }

  /** Keys.IsValid */
  method IsValid(ks: Keys) returns (ok: bool)
    ensures ok <==> Valid(ks)
  {
    if ks.threshold < 1 || ks.threshold > 100 { return false; }
    if !IsHash(ks.h) { return false; }
    if |ks.keys| < 1 || |ks.keys| > MAX_KEYS { return false; }
    var found: set<Publickey> := {};
    for i := 0 to |ks.keys|
      invariant forall p :: p in found <==> exists j :: 0 <= j < i && ks.keys[j].k == p
      invariant forall j :: 0 <= j < i ==> ks.keys[j].IsValid()
      invariant Distinct(ks.keys[..i])
    {
      var key := ks.keys[i];
      if !key.IsValid() { return false; }
      if key.k in found {
        return false;
      }
      assert key.k in found + {key.k};
      found := found + {key.k};
    }
    assert ks.keys[..|ks.keys|] == ks.keys;
    var totalWeight := 0;
    for i := 0 to |ks.keys|
      invariant totalWeight == TotalWeight(ks.keys[..i])
    {
      assert ks.keys[..i + 1][..i] == ks.keys[..i];
      totalWeight := totalWeight + ks.keys[i].w;
    }
    if totalWeight < ks.threshold { return false; }
    var keys := new Key[|ks.keys|](i requires 0 <= i < |ks.keys| => ks.keys[i]);
    assert keys[..] == ks.keys;
    var b := KeysBytes(keys, ks.threshold);
    return ks.h == SHA256(b);
  }

  // ---------------------------------------------------------------- threshold

  /** Keys.Key(p): the weight of a registered public key. */
  function Weight(s: seq<Key>, p: Publickey): (w: Option<nat>)
    ensures w.Some? <==> exists x :: x in s && x.k == p
    ensures w.Some? ==> exists x :: x in s && x.k == p && x.w == w.value
  {
    if s == [] then None
    else if s[0].k == p then Some(s[0].w)
    else
      assert s == [s[0]] + s[1..];
      Weight(s[1..], p)
  }

  predicate Registered(s: seq<Key>, p: Publickey) {
    Weight(s, p).Some?
  }

  function SignedWeight(s: seq<Key>, signers: seq<Publickey>): nat {
    if signers == [] then 0
    else SignedWeight(s, signers[..|signers| - 1]) + Weight(s, signers[|signers| - 1]).GetOr(0)
  }

  /** All signers are registered, and together they reach the threshold. */
  predicate PassesThreshold(signers: seq<Publickey>, ks: Keys) {
    && (forall p :: p in signers ==> Registered(ks.keys, p))
    && SignedWeight(ks.keys, signers) >= ks.threshold
  }

  /** checkThreshold */
  method CheckThreshold(signers: seq<Publickey>, ks: Keys) returns (ok: bool)
    ensures ok <==> PassesThreshold(signers, ks)
  {
    var sum := 0;
    for i := 0 to |signers|
      invariant forall j :: 0 <= j < i ==> Registered(ks.keys, signers[j])
      invariant sum == SignedWeight(ks.keys, signers[..i])
    {
      var w := Weight(ks.keys, signers[i]);
      if w.None? {
        assert signers[i] in signers;
        return false;
      }
      assert signers[..i + 1][..i] == signers[..i];
      sum := sum + w.value;
    }
    assert signers[..|signers|] == signers;
    return sum >= ks.threshold;
  }

  predicate DistinctSigners(s: seq<Publickey>) {
    forall i, j :: 0 <= i < j < |s| ==> s[i] != s[j]
  }

  ghost function SignerSet(s: seq<Publickey>): set<Publickey> {
    set p | p in s
  }

  ghost function WeightOf(s: seq<Key>): Publickey -> int {
    p => Weight(s, p).GetOr(0)
  }

  /** For distinct signers the accumulated weight is the sum over the set of signers. */
  lemma {:induction false} SignedWeightIsSum(s: seq<Key>, signers: seq<Publickey>)
    requires DistinctSigners(signers)
    ensures SignedWeight(s, signers) == Sum(SignerSet(signers), WeightOf(s))
  {
    if signers != [] {
      var front, last := signers[..|signers| - 1], signers[|signers| - 1];
      SignedWeightIsSum(s, front);
      assert SignerSet(signers) == SignerSet(front) + {last};
      assert last !in SignerSet(front);
      SumInsert(SignerSet(front), WeightOf(s), last);
    }
  }

  /**
    For distinct signers passing is a property of the set of signers alone, so their order does not
    matter.
  */
  lemma ThresholdMeaning(signers: seq<Publickey>, ks: Keys)
    requires DistinctSigners(signers)
    ensures PassesThreshold(signers, ks) <==>
            && (forall p :: p in SignerSet(signers) ==> Registered(ks.keys, p))
            && Sum(SignerSet(signers), WeightOf(ks.keys)) >= ks.threshold
  {
    SignedWeightIsSum(ks.keys, signers);
  }

  /** Adding registered signers never invalidates a sufficient set of signatures. */
  lemma {:induction false} MoreSignersPass(signers: seq<Publickey>, more: seq<Publickey>, ks: Keys)
    requires PassesThreshold(signers, ks)
    requires forall p :: p in more ==> Registered(ks.keys, p)
    ensures PassesThreshold(signers + more, ks)
  {
    if more == [] {
      assert signers + more == signers;
    } else {
      var front := more[..|more| - 1];
      MoreSignersPass(signers, front, ks);
      assert (signers + more)[..|signers + more| - 1] == signers + front;
    }
  }

  /** Without a signature nothing passes. */
  lemma UnsignedFails(ks: Keys)
    requires Valid(ks)
    ensures !PassesThreshold([], ks)
  {
    assert SignedWeight(ks.keys, []) == 0;
  }

  ghost function KeyNames(s: seq<Key>): set<Publickey> {
    set x | x in s :: x.k
  }

  lemma {:induction false} FewNames(s: seq<Key>)
    ensures |KeyNames(s)| <= |s|
  {
    if s != [] {
      var front, last := s[..|s| - 1], s[|s| - 1];
      FewNames(front);
      assert s == front + [last];
      assert KeyNames(s) == KeyNames(front) + {last.k};
    }
  }

  lemma {:induction false} SetSize(signers: seq<Publickey>)
    requires DistinctSigners(signers)
    ensures |SignerSet(signers)| == |signers|
  {
    if signers != [] {
      var front, last := signers[..|signers| - 1], signers[|signers| - 1];
      SetSize(front);
      assert SignerSet(signers) == SignerSet(front) + {last} && last !in SignerSet(front);
    }
  }

  lemma {:induction false} WeightsBounded(s: seq<Key>, signers: seq<Publickey>)
    requires forall x :: x in s ==> x.w <= 100
    ensures SignedWeight(s, signers) <= 100 * |signers|
  {
    if signers != [] {
      WeightsBounded(s, signers[..|signers| - 1]);
      var w := Weight(s, signers[|signers| - 1]);
    }
  }

  lemma Subset<T>(a: set<T>, b: set<T>)
    requires a <= b
    ensures |a| <= |b|
  {
    assert b == a + (b - a);
  }

  /** The sum of the weights of any different signers of valid keys stays at or below 1000; no uint overflows. */
  lemma WeightsFit(ks: Keys, signers: seq<Publickey>)
    requires Valid(ks) && DistinctSigners(signers) && forall p :: p in signers ==> Registered(ks.keys, p)
    ensures SignedWeight(ks.keys, signers) <= 1000
  {
    hide SignedWeight, TotalWeight, GenerateHash;
    FewNames(ks.keys);
    SetSize(signers);
    Subset(SignerSet(signers), KeyNames(ks.keys));
    WeightsBounded(ks.keys, signers);
  }

  function Publickeys(s: seq<Key>): (ps: seq<Publickey>)
    ensures |ps| == |s| && forall i :: 0 <= i < |s| ==> ps[i] == s[i].k
  {
    seq(|s|, i requires 0 <= i < |s| => s[i].k)
  }

  /** Nobody is locked out of valid keys: signing with all of them is enough, whatever the weights. */
  lemma AllKeysPass(ks: Keys)
    requires Valid(ks)
    ensures DistinctSigners(Publickeys(ks.keys)) && PassesThreshold(Publickeys(ks.keys), ks)
  {
    AllWeights(ks.keys, ks.keys);
  }

  lemma {:induction false} AllWeights(all: seq<Key>, s: seq<Key>)
    requires Distinct(all) && forall x :: x in s ==> x in all
    ensures SignedWeight(all, Publickeys(s)) == TotalWeight(s)
    ensures forall p :: p in Publickeys(s) ==> Registered(all, p)
  {
    if s != [] {
      var front, last := s[..|s| - 1], s[|s| - 1];
      AllWeights(all, front);
      assert Publickeys(s)[..|s| - 1] == Publickeys(front);
      assert last in all;
      var x :| x in all && x.k == last.k && Weight(all, last.k) == Some(x.w);
      SamePublickey(all, x, last);
    }
  }
}
