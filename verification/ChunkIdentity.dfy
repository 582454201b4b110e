/**
 The identity string behind a chunk's point id.  The id itself is the name-based UUID of this
 string (section 5.5 of RFC 9562), taken to be collision-free, so the string stands for the id.
 */
module ChunkIdentity {
  import opened Common

  function Digits(n: nat): (s: string)
    ensures |s| > 0 && forall i :: 0 <= i < |s| ==> '0' <= s[i] <= '9'
  {
    var last := [('0' as int + n % 10) as char];
    if n < 10 then last else Digits(n / 10) + last
  }

  function Decimal(n: int): string {
    if n < 0 then "-" + Digits(-n) else Digits(n)
  }

  /** f"{tenant}:{filename}:{page}:{index}" and, for a versioned chunk, f":{version}" */
  function Identity(tenant: string, filename: string, page: int, index: nat, version: Option<string>): string {
    var identity := tenant + ":" + filename + ":" + Decimal(page) + ":" + Digits(index);
    if version.Some? then identity + ":" + version.value else identity
  }

  /** UUID text: five groups of hexadecimal digits joined by hyphens. */
  predicate IsUuid(s: string) {
    && |s| == 36
    && forall i :: 0 <= i < 36 ==>
         if i in {8, 13, 18, 23} then s[i] == '-'
         else '0' <= s[i] <= '9' || 'a' <= s[i] <= 'f'
  }

  /** The place of the last colon, -1 without one. */
  function LastColon(s: string): (k: int)
    ensures -1 <= k < |s|
  {
    if s == [] then -1
    else if s[|s| - 1] == ':' then |s| - 1
    else LastColon(s[..|s| - 1])
  }

  lemma {:induction false} LastColonOf(head: string, tail: string)
    requires forall i :: 0 <= i < |tail| ==> tail[i] != ':'
    ensures LastColon(head + ":" + tail) == |head|
  {
    var s := head + ":" + tail;
    if tail != [] {
      assert s[..|s| - 1] == head + ":" + tail[..|tail| - 1];
      LastColonOf(head, tail[..|tail| - 1]);
    }
  }

  /** A string can be cut at its last colon in one way only. */
  lemma CutAtLastColon(a: string, x: string, b: string, y: string)
    requires a + ":" + x == b + ":" + y
    requires (forall i :: 0 <= i < |x| ==> x[i] != ':') && (forall i :: 0 <= i < |y| ==> y[i] != ':')
    ensures a == b && x == y
  {
    LastColonOf(a, x);
    LastColonOf(b, y);
    var s := a + ":" + x;
    assert a == s[..|a|] && b == s[..|a|];
    assert x == s[|a| + 1..] && y == s[|a| + 1..];
  }

  lemma {:induction false} DigitsInjective(m: nat, n: nat)
    requires Digits(m) == Digits(n)
    ensures m == n
  {
    var s := Digits(m);
    assert s[|s| - 1] == ('0' as int + m % 10) as char;
    assert s[|s| - 1] == ('0' as int + n % 10) as char;
    if m >= 10 || n >= 10 {
      assert m < 10 ==> |s| == 1;
      assert n < 10 ==> |s| == 1;
      assert m >= 10 ==> Digits(m / 10) == s[..|s| - 1];
      assert n >= 10 ==> Digits(n / 10) == s[..|s| - 1];
      DigitsInjective(m / 10, n / 10);
    }
  }

  lemma DecimalsInjective(m: int, n: int)
    requires Decimal(m) == Decimal(n)
    ensures m == n
  {
    assert Decimal(m)[0] == '-' <==> m < 0;
    assert Decimal(n)[0] == '-' <==> n < 0;
    if m < 0 && n < 0 {
      assert Digits(-m) == Decimal(m)[1..] == Digits(-n);
      DigitsInjective(-m, -n);
    } else if m >= 0 && n >= 0 {
      DigitsInjective(m, n);
    }
  }

  lemma DecimalHasNoColon(n: int)
    ensures forall i :: 0 <= i < |Decimal(n)| ==> Decimal(n)[i] != ':'
  {
  }

  lemma UnversionedInjective(tenant: string, filename: string, page: int, index: nat,
                             tenant': string, filename': string, page': int, index': nat)
    requires |tenant| == |tenant'|
    requires Identity(tenant, filename, page, index, None) == Identity(tenant', filename', page', index', None)
    ensures tenant == tenant' && filename == filename' && page == page' && index == index'
  {
    var a, b := tenant + ":" + filename, tenant' + ":" + filename';
    CutAtLastColon(a + ":" + Decimal(page), Digits(index), b + ":" + Decimal(page'), Digits(index'));
    DecimalHasNoColon(page);
    DecimalHasNoColon(page');
    CutAtLastColon(a, Decimal(page), b, Decimal(page'));
    DigitsInjective(index, index');
    DecimalsInjective(page, page');
    assert tenant == a[..|tenant|] && tenant' == b[..|tenant|];
    assert filename == a[|tenant| + 1..] && filename' == b[|tenant| + 1..];
  }

  /** Two chunks with one identity are the same chunk - whatever colons their filenames hold. */
  lemma IdentityInjective(tenant: string, filename: string, page: int, index: nat, version: Option<string>,
                          tenant': string, filename': string, page': int, index': nat, version': Option<string>)
    requires IsUuid(tenant) && IsUuid(tenant')
    requires version.Some? ==> IsUuid(version.value)
    requires version'.Some? ==> IsUuid(version'.value)
    requires Identity(tenant, filename, page, index, version) == Identity(tenant', filename', page', index', version')
    ensures tenant == tenant' && filename == filename' && page == page' && index == index' && version == version'
  {
    var short := Identity(tenant, filename, page, index, None);
    var short' := Identity(tenant', filename', page', index', None);
    var head, head' := tenant + ":" + filename + ":" + Decimal(page), tenant' + ":" + filename' + ":" + Decimal(page');
    assert version.Some? ==> version.value[8] == '-';
    assert version'.Some? ==> version'.value[8] == '-';
    if version.Some? && version'.Some? {
      CutAtLastColon(short, version.value, short', version'.value);
    } else if version.Some? {
      CutAtLastColon(short, version.value, head', Digits(index'));
    } else if version'.Some? {
      CutAtLastColon(head, Digits(index), short', version'.value);
    }
    UnversionedInjective(tenant, filename, page, index, tenant', filename', page', index');
  }
}
