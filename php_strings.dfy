/**
 * PHP byte strings and the handful of PHP string functions the client uses
 * (`strtolower`, `strtoupper`, `trim`/`rtrim`, `sprintf('%02s')`, integer
 * rendering, `implode`, `explode`).
 */
module PhpStrings {
  import opened Wrappers

  /** One byte of a PHP string, carried as a character; a PHP string never holds one above 255. */
  type Octet = char

  /** A PHP string: a sequence of bytes. */
  type Bytes = seq<Octet>

  /** Every character is a byte value (0 to 255), as in every string PHP produces. */
  predicate IsByteString(s: Bytes) {
    forall i | 0 <= i < |s| :: s[i] <= 'ÿ'
  }

  predicate IsAsciiUpper(c: char) { 'A' <= c <= 'Z' }

  predicate IsAsciiLower(c: char) { 'a' <= c <= 'z' }

  predicate IsDigit(c: char) { '0' <= c <= '9' }

  function LowerByte(c: Octet): Octet {
    if IsAsciiUpper(c) then (c as int + 32) as char else c
  }

  function UpperByte(c: Octet): Octet {
    if IsAsciiLower(c) then (c as int - 32) as char else c
  }

  /** `strtolower`: maps the ASCII letters A-Z and leaves every other byte alone. */
  function Lower(s: Bytes): (r: Bytes)
    ensures |r| == |s|
    ensures forall i | 0 <= i < |r| :: !IsAsciiUpper(r[i])
    ensures forall i | 0 <= i < |s| && IsAsciiUpper(s[i]) :: r[i] as int == s[i] as int + 32
    ensures forall i | 0 <= i < |s| && !IsAsciiUpper(s[i]) :: r[i] == s[i]
  {
    seq(|s|, i requires 0 <= i < |s| => LowerByte(s[i]))
  }

  /** `strtoupper`: maps the ASCII letters a-z and leaves every other byte alone. */
  function Upper(s: Bytes): (r: Bytes)
    ensures |r| == |s|
    ensures forall i | 0 <= i < |r| :: !IsAsciiLower(r[i])
    ensures forall i | 0 <= i < |s| && IsAsciiLower(s[i]) :: r[i] as int == s[i] as int - 32
    ensures forall i | 0 <= i < |s| && !IsAsciiLower(s[i]) :: r[i] == s[i]
  {
    seq(|s|, i requires 0 <= i < |s| => UpperByte(s[i]))
  }

  /** Lower-casing twice is lower-casing once. */
  lemma LowerIdempotent(s: Bytes)
    ensures Lower(Lower(s)) == Lower(s)
  {
  }

  /** Upper-casing forgets whether the input had been lower-cased first. */
  lemma UpperOfLower(s: Bytes)
    ensures Upper(Lower(s)) == Upper(s)
  {
    assert forall i | 0 <= i < |s| :: UpperByte(LowerByte(s[i])) == UpperByte(s[i]);
  }

  /** `ltrim(s, cs)`: drops the leading bytes that belong to `cs`. */
  function TrimLeft(s: Bytes, cs: set<Octet>): (r: Bytes)
    ensures |r| <= |s| && r == s[|s| - |r|..]
    ensures r != [] ==> r[0] !in cs
    ensures forall i | 0 <= i < |s| - |r| :: s[i] in cs
  {
    if s != [] && s[0] in cs then TrimLeft(s[1..], cs) else s
  }

  /** `rtrim(s, cs)`: drops the trailing bytes that belong to `cs`. */
  function TrimRight(s: Bytes, cs: set<Octet>): (r: Bytes)
    ensures |r| <= |s| && r == s[..|r|]
    ensures r != [] ==> r[|r| - 1] !in cs
    ensures forall i | |r| <= i < |s| :: s[i] in cs
  {
    if s != [] && s[|s| - 1] in cs then TrimRight(s[..|s| - 1], cs) else s
  }

  /**
   * `trim(s, cs)`: the middle piece of `s` left after dropping the bytes of
   * `cs` from both ends, with neither end in `cs`.
   */
  function Trim(s: Bytes, cs: set<Octet>): (r: Bytes)
    ensures var lead := |s| - |TrimLeft(s, cs)|;
      lead + |r| <= |s| && r == s[lead..lead + |r|]
      && (forall i | 0 <= i < lead :: s[i] in cs)
      && (forall i | lead + |r| <= i < |s| :: s[i] in cs)
    ensures r != [] ==> r[0] !in cs && r[|r| - 1] !in cs
  {
    TrimRight(TrimLeft(s, cs), cs)
  }

  /** `sprintf('%02s', s)`: right-aligns `s` in a field of two, padding with '0'. */
  function ZeroPad2(s: Bytes): (r: Bytes)
    ensures |r| == if |s| < 2 then 2 else |s|
    ensures r[|r| - |s|..] == s
    ensures forall i | 0 <= i < |r| - |s| :: r[i] == '0'
  {
    if |s| == 0 then "00" else if |s| == 1 then "0" + s else s
  }

  function DigitChar(d: nat): Octet
    requires d < 10
  {
    ('0' as int + d) as char
  }

  function DigitValue(c: char): nat
    requires IsDigit(c)
  {
    c as int - '0' as int
  }

  predicate AllDigits(s: Bytes) {
    forall i | 0 <= i < |s| :: IsDigit(s[i])
  }

  /** The decimal rendering PHP gives an integer in string interpolation. */
  function NatToDecimal(n: nat): (r: Bytes)
    ensures |r| >= 1 && AllDigits(r)
    ensures |r| > 1 ==> r[0] != '0'
  {
    if n < 10 then [DigitChar(n)] else NatToDecimal(n / 10) + [DigitChar(n % 10)]
  }

  /** The integer a string of decimal digits denotes. */
  function DecimalValue(s: Bytes): nat
    requires AllDigits(s)
  {
    if s == [] then 0 else DecimalValue(s[..|s| - 1]) * 10 + DigitValue(s[|s| - 1])
  }

  /** Rendering an integer and reading it back gives the integer. */
  lemma {:induction false} DecimalRoundTrip(n: nat)
    ensures DecimalValue(NatToDecimal(n)) == n
  {
    if n >= 10 {
      DecimalRoundTrip(n / 10);
      var r := NatToDecimal(n);
      assert r[..|r| - 1] == NatToDecimal(n / 10);
    }
  }

  function Pow10(k: nat): nat {
    if k == 0 then 1 else 10 * Pow10(k - 1)
  }

  /** A number below `10^k` is written in at most `k` digits. */
  lemma {:induction false} DecimalLength(n: nat, k: nat)
    requires 1 <= k && n < Pow10(k)
    ensures |NatToDecimal(n)| <= k
  {
    if n >= 10 {
      assert k >= 2;
      DecimalLength(n / 10, k - 1);
    }
  }

  /** PHP truthiness of a string value: only "" and "0" are false. */
  predicate Truthy(s: Bytes) {
    s != "" && s != "0"
  }

  /** The position of the first `c` in `s`. */
  function IndexOf(s: Bytes, c: Octet): (r: Option<nat>)
    ensures r.Some? ==> r.value < |s| && s[r.value] == c && c !in s[..r.value]
    ensures r.None? ==> c !in s
  {
    if s == [] then None
    else if s[0] == c then Some(0)
    else
      var t := IndexOf(s[1..], c);
      if t.None? then None else Some(t.value + 1)
  }

  /** The first `c` of `a + [c] + b` is the one after `a` when `a` holds none. */
  lemma IndexOfAfter(a: Bytes, c: Octet, b: Bytes)
    requires c !in a
    ensures IndexOf(a + [c] + b, c) == Some(|a|)
  {
    var s := a + [c] + b;
    assert s[|a|] == c && s[..|a|] == a;
  }

  /** The position of the last `c` in `s`. */
  function LastIndexOf(s: Bytes, c: Octet): (r: Option<nat>)
    ensures r.Some? ==> r.value < |s| && s[r.value] == c && c !in s[r.value + 1..]
    ensures r.None? ==> c !in s
  {
    if s == [] then None
    else if s[|s| - 1] == c then Some(|s| - 1)
    else LastIndexOf(s[..|s| - 1], c)
  }

  /** The last `c` of `a + [c] + b` is the one after `a` when `b` holds none. */
  lemma LastIndexOfBefore(a: Bytes, c: Octet, b: Bytes)
    requires c !in b
    ensures LastIndexOf(a + [c] + b, c) == Some(|a|)
  {
    var s := a + [c] + b;
    assert s[|a|] == c && s[|a| + 1..] == b;
  }

  /** `implode(sep, parts)`. */
  function Join(parts: seq<Bytes>, sep: Octet): Bytes {
    if |parts| == 0 then []
    else if |parts| == 1 then parts[0]
    else Join(parts[..|parts| - 1], sep) + [sep] + parts[|parts| - 1]
  }

  /** `implode(parts)`: concatenation with no separator. */
  function Concat(parts: seq<Bytes>): Bytes {
    if parts == [] then [] else Concat(parts[..|parts| - 1]) + parts[|parts| - 1]
  }

  /** `explode(sep, s)`. */
  function Split(s: Bytes, sep: Octet): (r: seq<Bytes>)
    ensures |r| >= 1
    decreases |s|
  {
    var i := LastIndexOf(s, sep);
    if i.None? then [s] else Split(s[..i.value], sep) + [s[i.value + 1..]]
  }

  /** Splitting undoes joining when no part holds the separator. */
  lemma {:induction false} SplitJoin(parts: seq<Bytes>, sep: Octet)
    requires |parts| >= 1
    requires forall k | 0 <= k < |parts| :: sep !in parts[k]
    ensures Split(Join(parts, sep), sep) == parts
  {
    var n := |parts|;
    if n > 1 {
      var front := Join(parts[..n - 1], sep);
      var s := Join(parts, sep);
      assert s == front + [sep] + parts[n - 1];
      assert s[|front|] == sep;
      assert s[|front| + 1..] == parts[n - 1];
      assert LastIndexOf(s, sep) == Some(|front|);
      assert s[..|front|] == front;
      SplitJoin(parts[..n - 1], sep);
      assert parts[..n - 1] + [parts[n - 1]] == parts;
    }
  }
}
