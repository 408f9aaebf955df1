/**
 * The two helpers of the alternative front-end (src/uix/utils.ts): range
 * equality and the key of a rendered element.
 */
module UixUtils {
  import opened Optional

  /** `ItemsRange`: `[startIndex, endIndex]`. */
  type ItemsRange = (int, int)

  /** `isSameRange`. */
  function IsSameRange(prev: ItemsRange, next: ItemsRange): (r: bool)
    ensures r <==> prev == next
  {
    prev.0 == next.0 && prev.1 == next.1
  }

  lemma IsSameRangeReflexive(a: ItemsRange)
    ensures IsSameRange(a, a)
  {
  }

  lemma IsSameRangeSymmetric(a: ItemsRange, b: ItemsRange)
    ensures IsSameRange(a, b) == IsSameRange(b, a)
  {
  }

  lemma IsSameRangeTransitive(a: ItemsRange, b: ItemsRange, c: ItemsRange)
    requires IsSameRange(a, b) && IsSameRange(b, c)
    ensures IsSameRange(a, c)
  {
  }

  /** An element as `getKey` sees it: its `key` attribute, if it has one. */
  datatype DomElement = DomElement(keyAttribute: Option<string>)

  // ---- decimal rendering of an index, as `"_" + i` does for a non-negative integer ----

  predicate IsDigit(c: char)
  {
    '0' <= c <= '9'
  }

  function DigitChar(d: nat): (c: char)
    requires d < 10
    ensures IsDigit(c) && c as int - '0' as int == d
  {
    (d + '0' as int) as char
  }

  /** The decimal digits of `n`, most significant first. */
  function NatToString(n: nat): (s: string)
    ensures |s| >= 1
    ensures forall k :: 0 <= k < |s| ==> IsDigit(s[k])
    ensures n > 0 ==> s[0] != '0'
    decreases n
  {
    if n < 10 then [DigitChar(n)] else NatToString(n / 10) + [DigitChar(n % 10)]
  }

  /** The value of a string of decimal digits. */
  function ParseDigits(s: string): nat
    requires forall k :: 0 <= k < |s| ==> IsDigit(s[k])
    decreases |s|
  {
    if s == [] then 0
    else
      var d := s[|s| - 1] as int - '0' as int;
      assert IsDigit(s[|s| - 1]);
      ParseDigits(s[..|s| - 1]) * 10 + d
  }

  /** Reading the digits back gives the index. */
  lemma {:induction false} ParseNatToString(n: nat)
    ensures ParseDigits(NatToString(n)) == n
    decreases n
  {
    var s := NatToString(n);
    if n < 10 {
      assert s[..0] == [];
    } else {
      assert s[..|s| - 1] == NatToString(n / 10);
      ParseNatToString(n / 10);
    }
  }

  /** The key used when an element has none. */
  function FallbackKey(i: nat): string
  {
    "_" + NatToString(i)
  }

  /** `getKey`: the element's `key` attribute, or `"_" + i` when the element or its key is missing. */
  function GetKey(e: Option<DomElement>, i: nat): (k: string)
    ensures e.Some? && e.value.keyAttribute.Some? ==> k == e.value.keyAttribute.value
    ensures e.None? || e.value.keyAttribute.None? ==> |k| >= 2 && k[0] == '_'
  {
    if e.Some? && e.value.keyAttribute.Some? then e.value.keyAttribute.value else FallbackKey(i)
  }

  /** A fallback key names its index: an underscore followed by the index's digits. */
  lemma FallbackKeyDecodes(e: Option<DomElement>, i: nat)
    requires e.None? || e.value.keyAttribute.None?
    ensures var k := GetKey(e, i);
            k[0] == '_' && (forall m :: 1 <= m < |k| ==> IsDigit(k[m])) && ParseDigits(k[1..]) == i
  {
    var k := GetKey(e, i);
    assert k[1..] == NatToString(i);
    ParseNatToString(i);
  }

  /** Fallback keys of distinct indices are distinct. */
  lemma FallbackKeysDistinct(i: nat, j: nat)
    requires i != j
    ensures GetKey(None, i) != GetKey(None, j)
    ensures GetKey(Some(DomElement(None)), i) != GetKey(Some(DomElement(None)), j)
  {
    if FallbackKey(i) == FallbackKey(j) {
      assert FallbackKey(i)[1..] == NatToString(i);
      assert FallbackKey(j)[1..] == NatToString(j);
      ParseNatToString(i);
      ParseNatToString(j);
    }
  }
}
