/** How a zod issue path segment becomes an object key. A path segment is a
    property name or an array index; used as an object key, an index is
    converted to its decimal string, and an absent segment (an issue whose
    path is empty) is converted to the string "undefined". */
module PropertyKeys {

  import opened Entries

  datatype Segment = Field(name: Key) | Index(index: nat)

  /** The key an absent first path segment turns into. */
  const UndefinedKey: Key := "undefined"

  predicate IsDigit(c: char)
  {
    '0' <= c <= '9'
  }

  predicate AllDigits(s: string)
  {
    forall i :: 0 <= i < |s| ==> IsDigit(s[i])
  }

  function DigitChar(d: nat): (c: char)
    requires d < 10
    ensures IsDigit(c) && (c as int) - ('0' as int) == d
  {
    (('0' as int) + d) as char
  }

  /** The canonical decimal rendering of `n`: digits only, and no leading
      zero unless `n` is zero. */
  function Decimal(n: nat): (r: string)
    ensures |r| >= 1 && AllDigits(r)
    ensures r[0] == '0' <==> n == 0
    ensures n == 0 ==> r == "0"
    decreases n
  {
    if n < 10 then [DigitChar(n)] else Decimal(n / 10) + [DigitChar(n % 10)]
  }

  /** The number a string of digits denotes (the inverse of `Decimal`). */
  function DecimalValue(s: string): nat
    requires AllDigits(s)
    decreases |s|
  {
    if |s| == 0 then 0
    else
      assert IsDigit(s[|s| - 1]);
      DecimalValue(s[..|s| - 1]) * 10 + ((s[|s| - 1] as int) - ('0' as int))
  }

  /** Reading back the rendering of an index gives the index. */
  lemma {:induction false} DecimalRoundTrip(n: nat)
    ensures DecimalValue(Decimal(n)) == n
    decreases n
  {
    var r := Decimal(n);
    if n >= 10 {
      DecimalRoundTrip(n / 10);
      assert r[..|r| - 1] == Decimal(n / 10);
    }
  }

  /** Distinct indices give distinct keys. */
  lemma DecimalInjective(m: nat, n: nat)
    requires Decimal(m) == Decimal(n)
    ensures m == n
  {
    DecimalRoundTrip(m);
    DecimalRoundTrip(n);
  }

  /** A name is its own key; an index becomes `String(index)`: a non-empty
      digit string, without a leading zero unless the index is 0, that
      denotes the index. */
  function SegmentKey(seg: Segment): (k: Key)
    ensures seg.Field? ==> k == seg.name
    ensures seg.Index? ==> AllDigits(k) && DecimalValue(k) == seg.index
    ensures seg.Index? ==> |k| >= 1 && (k[0] == '0' <==> seg.index == 0)
    ensures seg.Index? && k[0] == '0' ==> k == "0"
  {
    match seg
    case Field(name) => name
    case Index(i) => DecimalRoundTrip(i); Decimal(i)
  }

  /** The key an issue is filed under: its first path segment, converted.
      The key "undefined" arises exactly from an empty path or from a first
      segment that is literally named "undefined"; an index segment never
      produces it. */
  function FirstSegmentKey(path: seq<Segment>): (k: Key)
    ensures k == UndefinedKey <==> |path| == 0 || path[0] == Field(UndefinedKey)
    ensures |path| > 0 && path[0].Field? ==> k == path[0].name
    ensures |path| > 0 && path[0].Index? ==>
              && |k| >= 1 && AllDigits(k) && DecimalValue(k) == path[0].index
              && (k[0] == '0' <==> path[0].index == 0)
    ensures |path| > 0 && path[0] == Index(0) ==> k == "0"
  {
    if |path| == 0 then UndefinedKey
    else
      var k := SegmentKey(path[0]);
      assert path[0].Index? ==> k != UndefinedKey by {
        if path[0].Index? { assert IsDigit(k[0]) && !IsDigit(UndefinedKey[0]); }
      }
      k
  }
}
