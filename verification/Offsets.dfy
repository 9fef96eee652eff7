/** Page offsets: "<height>,<index>" strings, written in decimal and parsed back. */
module Offsets {
  import opened Prelude

  const INT64_MIN: int := -0x8000_0000_0000_0000
  const INT64_MAX: int := 0x7FFF_FFFF_FFFF_FFFF
  const UINT64_MAX: int := 0xFFFF_FFFF_FFFF_FFFF

  predicate Digit(c: char) {
    '0' <= c <= '9'
  }

  function DigitChar(d: nat): (c: char)
    requires d < 10
    ensures Digit(c) && DigitValue(c) == d
  {
    '0' + d as char
  }

  function DigitValue(c: char): (d: nat)
    requires Digit(c)
    ensures d < 10
  {
    (c - '0') as nat
  }

  // ---------------------------------------------------------------- formatting, fmt's %d

  function FormatNat(n: nat): (s: string)
    ensures s != [] && forall c :: c in s ==> Digit(c)
  {
    if n < 10 then [DigitChar(n)] else FormatNat(n / 10) + [DigitChar(n % 10)]
  }

  function FormatInt(n: int): string {
    if n < 0 then "-" + FormatNat(-n) else FormatNat(n)
  }

  // ---------------------------------------------------------------- parsing, strconv

  function DigitsValue(s: string): nat
    requires forall c :: c in s ==> Digit(c)
  {
    if s == [] then 0 else 10 * DigitsValue(s[..|s| - 1]) + DigitValue(s[|s| - 1])
  }

  predicate AllDigits(s: string) {
    s != [] && forall c :: c in s ==> Digit(c)
  }

  /** ParseUint(s, 10, 64) */
  function ParseUint(s: string): Option<nat> {
    if AllDigits(s) && DigitsValue(s) <= UINT64_MAX then Some(DigitsValue(s)) else None
  }

  /** ParseInt(s, 10, 64): a sign is allowed in front. */
  function ParseInt(s: string): Option<int> {
    if s != [] && (s[0] == '+' || s[0] == '-') then
      if !AllDigits(s[1..]) then None
      else
        var v := if s[0] == '-' then 0 - DigitsValue(s[1..]) else DigitsValue(s[1..]);
        if INT64_MIN <= v <= INT64_MAX then Some(v) else None
    else if !AllDigits(s) || DigitsValue(s) > INT64_MAX then None
    else Some(DigitsValue(s))
  }

  lemma {:induction false} FormatNatValue(n: nat)
    ensures DigitsValue(FormatNat(n)) == n
  {
    if n >= 10 {
      FormatNatValue(n / 10);
      var s := FormatNat(n);
      assert s[..|s| - 1] == FormatNat(n / 10);
    } else {
      assert [DigitChar(n)][..0] == [];
    }
  }

  // ---------------------------------------------------------------- offsets

  const SEPARATOR: char := ','

  /** The position of the first separator. */
  function FirstComma(s: string): (r: Option<nat>)
    ensures r.None? <==> SEPARATOR !in s
    ensures r.Some? ==> r.value < |s| && s[r.value] == SEPARATOR && SEPARATOR !in s[..r.value]
  {
    if s == [] then None
    else if s[0] == SEPARATOR then Some(0)
    else
      var rest := FirstComma(s[1..]);
      if rest.None? then
        assert s == [s[0]] + s[1..];
        None
      else
        assert s[..rest.value + 1] == [s[0]] + s[1..][..rest.value];
        Some(rest.value + 1)
  }

  datatype Offset = Offset(height: int, index: nat)

  function BuildOffset(o: Offset): string {
    FormatInt(o.height) + [SEPARATOR] + FormatNat(o.index)
  }

  /** parseOffset: split at the first comma, then two numbers. */
  function ParseOffset(s: string): Option<Offset> {
    var n := FirstComma(s);
    if n.None? then None
    else
      var h, u := ParseInt(s[..n.value]), ParseUint(s[n.value + 1..]);
      if h.None? || u.None? then None else Some(Offset(h.value, u.value))
  }

  predicate Representable(o: Offset) {
    INT64_MIN <= o.height <= INT64_MAX && o.index <= UINT64_MAX
  }

  lemma ParseIntFormat(n: int)
    requires INT64_MIN <= n <= INT64_MAX
    ensures ParseInt(FormatInt(n)) == Some(n) && SEPARATOR !in FormatInt(n)
  {
    hide FormatNat, DigitsValue;
    if n < 0 {
      FormatNatValue(-n);
      assert FormatInt(n)[1..] == FormatNat(-n);
    } else {
      FormatNatValue(n);
      assert FormatInt(n)[0] in FormatInt(n);
    }
  }

  lemma SplitAtComma(p: string, q: string)
    requires SEPARATOR !in p
    ensures var s := p + [SEPARATOR] + q;
            FirstComma(s) == Some(|p|) && s[..|p|] == p && s[|p| + 1..] == q
  {
    var s := p + [SEPARATOR] + q;
    var n := FirstComma(s).value;
    assert s[|p|] == SEPARATOR;
    forall i | 0 <= i < n ensures s[i] != SEPARATOR { assert s[i] == s[..n][i]; }
    forall i | 0 <= i < |p| ensures s[i] != SEPARATOR { assert s[i] == p[i]; }
  }

  /** Every 64-bit height, negative ones included, and every 64-bit index survive the round trip. */
  lemma OffsetRoundTrip(o: Offset)
    requires Representable(o)
    ensures ParseOffset(BuildOffset(o)) == Some(o) && BuildOffset(o) != ""
  {
    ParseIntFormat(o.height);
    FormatNatValue(o.index);
    SplitAtComma(FormatInt(o.height), FormatNat(o.index));
  }

  lemma ParseIntRange(s: string)
    ensures ParseInt(s).Some? ==> INT64_MIN <= ParseInt(s).value <= INT64_MAX
  {}

  /** Whatever is accepted as an offset is equivalent to the canonical string of what it means. */
  lemma ParsedRepresentable(s: string)
    requires ParseOffset(s).Some?
    ensures Representable(ParseOffset(s).value)
    ensures ParseOffset(BuildOffset(ParseOffset(s).value)) == ParseOffset(s)
  {
    ParseIntRange(s[..FirstComma(s).value]);
    OffsetRoundTrip(ParseOffset(s).value);
  }
}
