/** The string keys under which accounts, balances and currency designs are stored. */
module StateKeys {
  import opened Feeers

  type CurrencyID = string

  const MIN_LENGTH_CURRENCY_ID: nat := 3
  const MAX_LENGTH_CURRENCY_ID: nat := 10

  /** The hint type of an address, in hex. */
  const ADDRESS_TYPE: string := "a000"
  const ACCOUNT_SUFFIX: string := ":account"
  const BALANCE_SUFFIX: string := ":balance"
  const DESIGN_PREFIX: string := "currencydesign:"

  predicate EdgeChar(c: char) {
    'A' <= c <= 'Z' || '0' <= c <= '9'
  }

  predicate InnerChar(c: char) {
    EdgeChar(c) || c in "_.!$*+@"
  }

  predicate ValidCurrencyID(s: CurrencyID) {
    && MIN_LENGTH_CURRENCY_ID <= |s| <= MAX_LENGTH_CURRENCY_ID
    && EdgeChar(s[0]) && EdgeChar(s[|s| - 1])
    && forall c :: c in s ==> InnerChar(c)
  }

  function AddressPrefix(a: Address): string {
    a + "-" + ADDRESS_TYPE
  }

  function AccountKey(a: Address): string {
    AddressPrefix(a) + ACCOUNT_SUFFIX
  }

  function BalanceKey(a: Address, cid: CurrencyID): string {
    AddressPrefix(a) + "-" + cid + BALANCE_SUFFIX
  }

  function DesignKey(cid: CurrencyID): string {
    DESIGN_PREFIX + cid
  }

  predicate HasSuffix(s: string, suffix: string) {
    |s| >= |suffix| && s[|s| - |suffix|..] == suffix
  }

  predicate IsAccountKey(key: string) { HasSuffix(key, ACCOUNT_SUFFIX) }

  predicate IsBalanceKey(key: string) { HasSuffix(key, BALANCE_SUFFIX) }

  predicate IsDesignKey(key: string) { DESIGN_PREFIX <= key }

  lemma LastAt(p: string, c: string, sep: char)
    requires sep !in c
    ensures var s := p + [sep] + c;
            s[|p|] == sep && forall i :: |p| < i < |s| ==> s[i] != sep
  {}

  /** A separator that does not occur behind it splits a string in one way only. */
  lemma LastSeparator(p: string, c: string, q: string, d: string, sep: char)
    requires sep !in c && sep !in d
    requires p + [sep] + c == q + [sep] + d
    ensures p == q && c == d
  {
    var s := p + [sep] + c;
    LastAt(p, c, sep);
    LastAt(q, d, sep);
    assert |p| == |q|;
    assert p == s[..|p|] && q == s[..|q|];
    assert c == s[|p| + 1..] && d == s[|q| + 1..];
  }

  lemma SuffixSplit(x: string, y: string, suffix: string)
    requires x + suffix == y + suffix
    ensures x == y
  {
    assert |x| == |y|;
    assert x == (x + suffix)[..|x|] && y == (y + suffix)[..|y|];
  }

  lemma AddressPrefixInjective(a: Address, b: Address)
    requires AddressPrefix(a) == AddressPrefix(b)
    ensures a == b
  {
    assert AddressPrefix(a) == a + ("-" + ADDRESS_TYPE) && AddressPrefix(b) == b + ("-" + ADDRESS_TYPE);
    SuffixSplit(a, b, "-" + ADDRESS_TYPE);
  }

  /** One balance key per (address, currency), whatever characters the address is made of. */
  lemma BalanceKeyInjective(a: Address, c: CurrencyID, b: Address, d: CurrencyID)
    requires ValidCurrencyID(c) && ValidCurrencyID(d)
    ensures BalanceKey(a, c) == BalanceKey(b, d) <==> a == b && c == d
  {
    if BalanceKey(a, c) == BalanceKey(b, d) {
      SuffixSplit(AddressPrefix(a) + "-" + c, AddressPrefix(b) + "-" + d, BALANCE_SUFFIX);
      assert AddressPrefix(a) + ['-'] + c == AddressPrefix(b) + ['-'] + d;
      LastSeparator(AddressPrefix(a), c, AddressPrefix(b), d, '-');
      AddressPrefixInjective(a, b);
    }
  }

  lemma AccountKeyInjective(a: Address, b: Address)
    ensures AccountKey(a) == AccountKey(b) <==> a == b
  {
    if AccountKey(a) == AccountKey(b) {
      SuffixSplit(AddressPrefix(a), AddressPrefix(b), ACCOUNT_SUFFIX);
      AddressPrefixInjective(a, b);
    }
  }

  lemma DesignKeyInjective(c: CurrencyID, d: CurrencyID)
    ensures DesignKey(c) == DesignKey(d) <==> c == d
  {
    if DesignKey(c) == DesignKey(d) {
      assert c == DesignKey(c)[|DESIGN_PREFIX|..] && d == DesignKey(d)[|DESIGN_PREFIX|..];
    }
  }

  /** A name the design recogniser mistakes for its own: only one that already starts like a design key. */
  lemma DesignPrefixOnlyInName(a: Address, rest: string)
    ensures IsDesignKey(AddressPrefix(a) + rest) <==> DESIGN_PREFIX <= a
  {
    var key := AddressPrefix(a) + rest;
    assert key == a + ("-" + ADDRESS_TYPE + rest);
    if |a| < |DESIGN_PREFIX| {
      assert key[|a|] == '-';
      assert forall i :: 0 <= i < |DESIGN_PREFIX| ==> DESIGN_PREFIX[i] != '-';
    } else {
      assert key[..|DESIGN_PREFIX|] == a[..|DESIGN_PREFIX|];
    }
  }

  /**
    The suffix and prefix tests classify every stored key correctly, provided no address starts like
    a design key; addresses derived from keys contain no ':' and so never do.
  */
  lemma KeysClassified(a: Address, c: CurrencyID)
    requires ValidCurrencyID(c)
    ensures IsAccountKey(AccountKey(a)) && !IsBalanceKey(AccountKey(a))
    ensures IsBalanceKey(BalanceKey(a, c)) && !IsAccountKey(BalanceKey(a, c))
    ensures IsDesignKey(DesignKey(c)) && !IsAccountKey(DesignKey(c)) && !IsBalanceKey(DesignKey(c))
    ensures IsDesignKey(AccountKey(a)) <==> DESIGN_PREFIX <= a
    ensures IsDesignKey(BalanceKey(a, c)) <==> DESIGN_PREFIX <= a
    ensures ':' !in a ==> !(DESIGN_PREFIX <= a)
    ensures AccountKey(a) != BalanceKey(a, c) && AccountKey(a) != DesignKey(c) && BalanceKey(a, c) != DesignKey(c)
  {
    var acc, bal, des := AccountKey(a), BalanceKey(a, c), DesignKey(c);
    assert acc[|acc| - 1] == 't' && bal[|bal| - 1] == 'e' && des[|des| - 1] == c[|c| - 1];
    assert acc[|acc| - |ACCOUNT_SUFFIX|..] == ACCOUNT_SUFFIX;
    assert bal[|bal| - |BALANCE_SUFFIX|..] == BALANCE_SUFFIX;
    LastChar(acc, BALANCE_SUFFIX);
    LastChar(bal, ACCOUNT_SUFFIX);
    LastChar(des, ACCOUNT_SUFFIX);
    LastChar(des, BALANCE_SUFFIX);
    DesignPrefixOnlyInName(a, ACCOUNT_SUFFIX);
    DesignPrefixOnlyInName(a, "-" + c + BALANCE_SUFFIX);
    assert bal == AddressPrefix(a) + ("-" + c + BALANCE_SUFFIX);
    if DESIGN_PREFIX <= a {
      assert a[14] == DESIGN_PREFIX[14] == ':';
    }
  }

  lemma LastChar(s: string, suffix: string)
    requires suffix != []
    ensures HasSuffix(s, suffix) ==> s[|s| - 1] == suffix[|suffix| - 1]
  {}

  /** BalanceDoc: the address field cut out of a balance key. */
  function BalanceDocAddress(key: string, cid: CurrencyID): string
    requires |key| >= |BALANCE_SUFFIX| + |cid| + 1
  {
    key[..|key| - |BALANCE_SUFFIX| - |cid| - 1]
  }

  /** Cutting recovers exactly the prefix under which the balances of the address are looked up. */
  lemma BalanceDocAddressExact(a: Address, c: CurrencyID)
    ensures |BalanceKey(a, c)| >= |BALANCE_SUFFIX| + |c| + 1
    ensures BalanceDocAddress(BalanceKey(a, c), c) == AddressPrefix(a)
  {}
}
