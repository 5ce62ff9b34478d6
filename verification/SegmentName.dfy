/** Segment file names: `segment_path` and the parsing in `discover_segment_ids`. */
module SegmentName {
  import opened Entry

  const U64_LIMIT: nat := 0x1_0000_0000_0000_0000

  function DigitChar(d: nat): (ch: char)
    requires d < 10
  {
    ('0' as int + d) as char
  }

  predicate IsDigit(ch: char) { '0' <= ch <= '9' }

  function DigitValue(ch: char): (d: nat)
    requires IsDigit(ch)
    ensures d < 10
  {
    ch as int - '0' as int
  }

  function Decimal(n: nat): (s: string)
    ensures s != [] && forall ch :: ch in s ==> IsDigit(ch)
  {
    if n < 10 then [DigitChar(n)] else Decimal(n / 10) + [DigitChar(n % 10)]
  }

  function Zeros(k: nat): (s: string)
    ensures |s| == k && forall ch :: ch in s ==> ch == '0'
  {
    if k == 0 then [] else Zeros(k - 1) + ['0']
  }

  /** `format!("wal-{id:08}.log")`. */
  function SegmentFileName(id: nat): (s: string) {
    var d := Decimal(id);
    "wal-" + (Zeros(if |d| < 8 then 8 - |d| else 0) + d) + ".log"
  }

  /** `str::parse::<u64>`: digits with an optional plus sign, checked for overflow digit by digit. */
  function ParseDigits(s: string): (r: Option<nat>) {
    if s == [] then Some(0)
    else
      var n := |s| - 1;
      match ParseDigits(s[..n])
      case None => None
      case Some(v) =>
        if IsDigit(s[n]) && 10 * v + DigitValue(s[n]) < U64_LIMIT then Some(10 * v + DigitValue(s[n])) else None
  }

  function ParseU64(s: string): (r: Option<nat>) {
    var digits := if s != [] && s[0] == '+' then s[1..] else s;
    if digits == [] then None else ParseDigits(digits)
  }

  function DiscoverId(name: string): (r: Option<nat>) {
    if "wal-" <= name && |name| >= 8 && name[|name| - 4..] == ".log" then ParseU64(name[4..|name| - 4]) else None
  }

  lemma {:induction false} ParseZeros(k: nat)
    ensures ParseDigits(Zeros(k)) == Some(0)
  {
    if k > 0 {
      ParseZeros(k - 1);
      assert Zeros(k)[..k - 1] == Zeros(k - 1);
    }
  }

  lemma ParseSnoc(s: string, v: nat, d: nat)
    requires ParseDigits(s) == Some(v) && d < 10 && 10 * v + d < U64_LIMIT
    ensures ParseDigits(s + [DigitChar(d)]) == Some(10 * v + d)
  {
    assert (s + [DigitChar(d)])[..|s|] == s;
  }

  lemma {:induction false} ParseDecimal(k: nat, n: nat)
    requires n < U64_LIMIT
    ensures ParseDigits(Zeros(k) + Decimal(n)) == Some(n)
  {
    if n < 10 {
      ParseZeros(k);
      ParseSnoc(Zeros(k), 0, n);
    } else {
      ParseDecimal(k, n / 10);
      ParseSnoc(Zeros(k) + Decimal(n / 10), n / 10, n % 10);
      assert Zeros(k) + Decimal(n) == Zeros(k) + Decimal(n / 10) + [DigitChar(n % 10)];
    }
  }

  /** Generated names parse back to their ids, for every u64. */
  lemma NameRoundTrip(id: nat)
    requires id < U64_LIMIT
    ensures DiscoverId(SegmentFileName(id)) == Some(id)
  {
    var name, d := SegmentFileName(id), Decimal(id);
    var k: nat := if |d| < 8 then 8 - |d| else 0;
    var body := Zeros(k) + d;
    assert name[4..|name| - 4] == body;
    assert name[|name| - 4..] == ".log";
    assert body[0] in body && IsDigit(body[0]);
    ParseDecimal(k, id);
  }

  lemma NamesDiffer(a: nat, b: nat)
    requires a < U64_LIMIT && b < U64_LIMIT && SegmentFileName(a) == SegmentFileName(b)
    ensures a == b
  {
    NameRoundTrip(a);
    NameRoundTrip(b);
  }

  /** `wal-00000001.log`: ids with up to 8 digits have names of 16 characters, and no others. */
  lemma NameLength(id: nat)
    ensures |SegmentFileName(id)| == 16 <==> id < 1_0000_0000
    ensures SegmentFileName(id)[..4] == "wal-" && SegmentFileName(id)[|SegmentFileName(id)| - 4..] == ".log"
  {
    DecimalLength(id, 8);
  }

  function Pow10(k: nat): (p: nat)
    ensures p > 0
  {
    if k == 0 then 1 else 10 * Pow10(k - 1)
  }

  lemma {:induction false} DecimalLength(n: nat, k: nat)
    requires k > 0
    ensures |Decimal(n)| <= k <==> n < Pow10(k)
  {
    if n >= 10 && k > 1 { DecimalLength(n / 10, k - 1); }
  }

  // ----- Which names are segments -----

  /** The number that digits stand for, however many there are. */
  function ValueOf(s: string): (n: nat)
    requires AllDigits(s)
  {
    if s == [] then 0 else 10 * ValueOf(s[..|s| - 1]) + DigitValue(s[|s| - 1])
  }

  predicate AllDigits(s: string) { forall ch :: ch in s ==> IsDigit(ch) }

  /** The test for overflow after every digit is the test of the whole number. */
  lemma {:induction false} ParseDigitsIs(s: string)
    ensures ParseDigits(s) == if AllDigits(s) && ValueOf(s) < U64_LIMIT then Some(ValueOf(s)) else None
  {
    if s != [] {
      var n := |s| - 1;
      ParseDigitsIs(s[..n]);
      assert s == s[..n] + [s[n]];
    }
  }

  /** `wal-`, an optional plus sign, at least one digit, `.log`. */
  predicate Named(name: string, sign: string, digits: string) {
    && name == "wal-" + (sign + digits) + ".log" && (sign == "" || sign == "+") && digits != [] && AllDigits(digits)
  }

  lemma NamedDiscovers(name: string, sign: string, digits: string)
    requires Named(name, sign, digits) && ValueOf(digits) < U64_LIMIT
    ensures DiscoverId(name) == Some(ValueOf(digits))
  {
    Framed(name, sign + digits);
    ParseSigned(sign, digits);
    ParseDigitsIs(digits);
  }

  lemma Framed(name: string, body: string)
    requires name == "wal-" + body + ".log"
    ensures DiscoverId(name) == ParseU64(body)
  {
    assert name[4..|name| - 4] == body && name[|name| - 4..] == ".log";
  }

  lemma ParseSigned(sign: string, digits: string)
    requires (sign == "" || sign == "+") && digits != [] && AllDigits(digits)
    ensures ParseU64(sign + digits) == ParseDigits(digits)
  {
    assert digits[0] in digits;
    if sign == "" { assert sign + digits == digits; } else { assert (sign + digits)[1..] == digits; }
  }

  lemma DiscoveredIsNamed(name: string) returns (sign: string, digits: string)
    requires DiscoverId(name).Some?
    ensures Named(name, sign, digits) && ValueOf(digits) == DiscoverId(name).value < U64_LIMIT
  {
    var body := name[4..|name| - 4];
    sign := if body != [] && body[0] == '+' then "+" else "";
    digits := body[|sign|..];
    ParseDigitsIs(digits);
    assert body == sign + digits;
    Unframed(name);
  }

  lemma Unframed(name: string)
    requires "wal-" <= name && |name| >= 8 && name[|name| - 4..] == ".log"
    ensures name == "wal-" + name[4..|name| - 4] + ".log"
  {
    assert name[..4] == "wal-" && name == name[..4] + name[4..|name| - 4] + name[|name| - 4..];
  }

  /** A name is that of segment `id` exactly if it has that form and its digits stand for `id`, which
      fits in 64 bits. */
  lemma DiscoverIff(name: string, id: nat)
    ensures DiscoverId(name) == Some(id) <==>
      exists sign, digits :: Named(name, sign, digits) && ValueOf(digits) == id < U64_LIMIT
  {
    if DiscoverId(name) == Some(id) {
      var sign, digits := DiscoveredIsNamed(name);
    }
    forall sign, digits | Named(name, sign, digits) && ValueOf(digits) == id < U64_LIMIT
      ensures DiscoverId(name) == Some(id)
    {
      NamedDiscovers(name, sign, digits);
    }
  }
}
