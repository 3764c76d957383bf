/** Timestamps: a position in the global log wrapping a signed 64-bit
    address, plus the three sentinels MIN, MAX and INVALID. Real timestamps
    are ordered by their address, MIN lies below and MAX above every real
    timestamp, and comparing anything with INVALID (or with null) raises a
    ClassCastException. */
module Timestamps {
  import opened Base

  datatype Timestamp = Min | Max | Invalid | Simple(address: Int64)

  datatype Ordering = Less | Equal | Greater {
    function Flip(): Ordering {
      match this
      case Less => Greater
      case Equal => Equal
      case Greater => Less
    }
  }

  /** The exception `compareTo` raises for an incomparable argument. */
  datatype CompareError = ClassCast

  /** Position of a comparable timestamp in the order: MIN, then the real
      timestamps, then MAX. */
  function Tier(t: Timestamp): nat
    requires !t.Invalid?
  {
    match t
    case Min => 0
    case Simple(_) => 1
    case Max => 2
  }

  function CompareInts(x: int, y: int): Ordering {
    if x < y then Less else if x == y then Equal else Greater
  }

  /** `a.compareTo(b)`, with `None` standing for a null argument. */
  function CompareTo(a: Timestamp, b: Option<Timestamp>): (r: Result<Ordering, CompareError>)
    ensures r.Failure? <==> a.Invalid? || b.None? || b.value.Invalid?
    ensures r.Success? && a.Simple? && b.value.Simple? ==>
              (r.value == Less <==> a.address < b.value.address) &&
              (r.value == Equal <==> a.address == b.value.address) &&
              (r.value == Greater <==> a.address > b.value.address)
    ensures r.Success? && a.Min? ==> r.value == (if b.value.Min? then Equal else Less)
    ensures r.Success? && a.Max? ==> r.value == (if b.value.Max? then Equal else Greater)
    ensures r.Success? && b.value.Min? && !a.Min? ==> r.value == Greater
    ensures r.Success? && b.value.Max? && !a.Max? ==> r.value == Less
  {
    if a.Invalid? || b.None? || b.value.Invalid? then Failure(ClassCast)
    else
      var c := b.value;
      if Tier(a) != Tier(c) then Success(CompareInts(Tier(a), Tier(c)))
      else if a.Simple? then Success(CompareInts(a.address, c.address))
      else Success(Equal)
  }

  /** Two comparable timestamps compare in opposite directions depending on
      the side each is on. */
  lemma CompareAntisymmetric(a: Timestamp, b: Timestamp)
    requires !a.Invalid? && !b.Invalid?
    ensures CompareTo(a, Some(b)).Success? && CompareTo(b, Some(a)).Success?
    ensures CompareTo(a, Some(b)).value == CompareTo(b, Some(a)).value.Flip()
  {
  }

  /** Comparison says Equal exactly of equal timestamps. */
  lemma CompareEqualIffSame(a: Timestamp, b: Timestamp)
    requires !a.Invalid? && !b.Invalid?
    ensures CompareTo(a, Some(b)) == Success(Equal) <==> a == b
  {
  }

  /** Less is transitive, so the comparable timestamps form a strict total order. */
  lemma CompareTransitive(a: Timestamp, b: Timestamp, c: Timestamp)
    requires CompareTo(a, Some(b)) == Success(Less) && CompareTo(b, Some(c)) == Success(Less)
    ensures CompareTo(a, Some(c)) == Success(Less)
  {
  }

  /** The assertions of the timestamp comparison test, over the model. */
  lemma ComparisonTestCases()
    ensures CompareTo(Simple(0), Some(Simple(0))).value != Greater
    ensures CompareTo(Simple(0), Some(Simple(1))) == Success(Less)
    ensures CompareTo(Simple(0), Some(Simple(INT64_MAX))) == Success(Less)
    ensures CompareTo(Simple(0), Some(Min)) == Success(Greater)
    ensures CompareTo(Simple(0), Some(Max)) == Success(Less)
    ensures Simple(600) != Simple(6000) && Simple(600) == Simple(600)
    ensures CompareTo(Simple(600), Some(Simple(1000))) == Success(Less)
    ensures CompareTo(Simple(600), Some(Simple(INT64_MIN))) == Success(Greater)
    ensures CompareTo(Simple(600), Some(Min)) == Success(Greater)
    ensures CompareTo(Simple(600), Some(Simple(0))) == Success(Greater)
    ensures CompareTo(Min, Some(Simple(0))) == Success(Less)
    ensures CompareTo(Min, Some(Simple(INT64_MIN))) == Success(Less)
    ensures CompareTo(Max, Some(Simple(0))) == Success(Greater)
    ensures CompareTo(Max, Some(Simple(INT64_MAX))) == Success(Greater)
    ensures CompareTo(Simple(10), Some(Invalid)) == Failure(ClassCast)
    ensures CompareTo(Simple(10), None) == Failure(ClassCast)
    ensures CompareTo(Invalid, Some(Simple(93))) == Failure(ClassCast)
  {
  }

  // ---------------------------------------------------------------------
  // Decimal string form of a real timestamp (`Long.toString(address)`).

  predicate IsDigit(c: char) {
    '0' <= c <= '9'
  }

  function DigitChar(d: nat): (c: char)
    requires d < 10
    ensures IsDigit(c) && c as int - '0' as int == d
  {
    (d + '0' as int) as char
  }

  /** Decimal digits of `n`, most significant first, without leading zeros. */
  function NatDigits(n: nat): (s: string)
    ensures |s| >= 1
    ensures forall i :: 0 <= i < |s| ==> IsDigit(s[i])
    ensures s[0] == '0' ==> n == 0
    decreases n
  {
    if n < 10 then [DigitChar(n)] else NatDigits(n / 10) + [DigitChar(n % 10)]
  }

  /** The string form of the real timestamp at `address`. */
  function AddressString(address: Int64): (s: string)
    ensures |s| >= 1
    ensures s[0] == '-' <==> address < 0
  {
    if address < 0 then "-" + NatDigits(-(address as int)) else NatDigits(address)
  }

  /** Reads back a string of decimal digits. */
  function ParseNat(s: string): nat
    requires forall i :: 0 <= i < |s| ==> IsDigit(s[i])
  {
    if s == [] then 0
    else
      var d := s[|s| - 1] as int - '0' as int;
      assert IsDigit(s[|s| - 1]);
      10 * ParseNat(s[..|s| - 1]) + d
  }

  /** Reads back an optionally negative decimal number. */
  function ParseDecimal(s: string): int
    requires |s| >= 1
    requires forall i :: (if s[0] == '-' then 1 else 0) <= i < |s| ==> IsDigit(s[i])
  {
    if s[0] == '-' then -(ParseNat(s[1..]) as int) else ParseNat(s)
  }

  lemma {:induction false} NatDigitsRoundTrip(n: nat)
    ensures ParseNat(NatDigits(n)) == n
    decreases n
  {
    if n >= 10 {
      var s := NatDigits(n);
      NatDigitsRoundTrip(n / 10);
      assert s[..|s| - 1] == NatDigits(n / 10);
    }
  }

  /** The string form starts with a digit or a minus sign followed by digits,
      and reading it back yields the address: distinct timestamps print
      differently. */
  lemma AddressStringRoundTrip(address: Int64)
    ensures var s := AddressString(address);
      |s| >= 1 && (forall i :: (if s[0] == '-' then 1 else 0) <= i < |s| ==> IsDigit(s[i])) &&
      ParseDecimal(s) == address
  {
    var s := AddressString(address);
    if address < 0 {
      NatDigitsRoundTrip(-(address as int));
      assert s[1..] == NatDigits(-(address as int));
    } else {
      NatDigitsRoundTrip(address);
    }
  }

  /** The string-representation test: 0 prints as "0" and 100 as "100". */
  lemma StringTestCases()
    ensures AddressString(0) == "0"
    ensures AddressString(100) == "100"
  {
    assert NatDigits(10) == NatDigits(1) + [DigitChar(0)];
    assert NatDigits(100) == NatDigits(10) + [DigitChar(0)];
  }

  // ---------------------------------------------------------------------
  // Java `long` arithmetic.

  /** Two's-complement wrap-around of a mathematical integer into a `long`. */
  function Wrap64(x: int): (r: Int64)
    ensures (r - x) % TWO_64 == 0
    ensures INT64_MIN <= x <= INT64_MAX ==> r == x
  {
    var m := x % TWO_64;
    if m > INT64_MAX then m - TWO_64 else m
  }
}
