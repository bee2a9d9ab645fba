/** The two hand-written codecs: a counter as a decimal numeral, and eight bytes, most significant
    first, as a counter. */
module Codec {
  import opened Common

  // ----- Decimal numerals -----

  function Digit(d: nat): char
    requires d < 10
  {
    '0' + d as char
  }

  predicate IsDigit(c: char) {
    '0' <= c <= '9'
  }

  function DigitValue(c: char): nat
    requires IsDigit(c)
  {
    (c - '0') as nat
  }

  predicate AllDigits(s: string) {
    forall i :: 0 <= i < |s| ==> IsDigit(s[i])
  }

  /** The decimal numeral of a number. */
  function Decimal(n: nat): string {
    if n < 10 then [Digit(n)] else Decimal(n / 10) + [Digit(n % 10)]
  }

  /** What a string of digits is worth. */
  function Parse(s: string): nat
    requires AllDigits(s)
  {
    if s == [] then 0 else 10 * Parse(s[..|s| - 1]) + DigitValue(s[|s| - 1])
  }

  /** A numeral without superfluous zeros in front. */
  predicate Canonical(s: string) {
    |s| > 0 && AllDigits(s) && (|s| > 1 ==> s[0] != '0')
  }

  function Pow10(k: nat): nat {
    if k == 0 then 1 else 10 * Pow10(k - 1)
  }

  /** The numeral has no leading zero and parsing undoes it. */
  lemma {:induction false} DecimalParses(n: nat)
    ensures Canonical(Decimal(n)) && Parse(Decimal(n)) == n
    ensures n > 0 ==> Decimal(n)[0] != '0'
  {
    if n < 10 {
      assert Decimal(n)[..0] == [];
    } else {
      DecimalParses(n / 10);
      assert Decimal(n)[..|Decimal(n)| - 1] == Decimal(n / 10);
    }
  }

  /** Numerals of different numbers differ. */
  lemma DecimalInjective(m: nat, n: nat)
    requires Decimal(m) == Decimal(n)
    ensures m == n
  {
    DecimalParses(m);
    DecimalParses(n);
  }

  lemma {:induction false} ParsePositive(s: string)
    requires Canonical(s) && |s| > 1
    ensures Parse(s) >= 10
  {
    if |s| == 2 {
      assert s[..1] == [s[0]] && [s[0]][..0] == [];
      assert Parse([s[0]]) == DigitValue(s[0]) > 0;
    } else {
      ParsePositive(s[..|s| - 1]);
    }
  }

  /** The numeral undoes parsing of anything written without superfluous zeros. */
  lemma {:induction false} ParseRendered(s: string)
    requires Canonical(s)
    ensures Decimal(Parse(s)) == s
  {
    var n := |s| - 1;
    if n == 0 {
      assert s[..0] == [] && s == [s[0]];
    } else {
      ParseRendered(s[..n]);
      ParsePositive(s);
      var high, low := Parse(s[..n]), DigitValue(s[n]);
      assert Parse(s) == 10 * high + low;
      assert (10 * high + low) / 10 == high && (10 * high + low) % 10 == low;
      assert Decimal(Parse(s)) == Decimal(high) + [Digit(low)];
      assert s == s[..n] + [s[n]];
    }
  }

  /** A number below the `k`-th power of ten has at most `k` digits. */
  lemma {:induction false} DecimalLength(n: nat, k: nat)
    requires k > 0 && n < Pow10(k)
    ensures |Decimal(n)| <= k
    decreases k
  {
    if k == 1 {
      assert Pow10(1) == 10 * Pow10(0);
    } else if n >= 10 {
      DecimalLength(n / 10, k - 1);
    }
  }

  lemma U64Digits(n: nat)
    requires n <= U64_MAX
    ensures |Decimal(n)| <= 20
  {
    assert Pow10(5) == 100000;
    assert Pow10(10) == 10000000000;
    assert Pow10(15) == 1000000000000000;
    assert Pow10(20) == 100000000000000000000;
    DecimalLength(n, 20);
  }

  function Reversed(s: string): string {
    if s == [] then [] else [s[|s| - 1]] + Reversed(s[..|s| - 1])
  }

  lemma {:induction false} ReversedAt(s: string)
    ensures |Reversed(s)| == |s| && forall i :: 0 <= i < |s| ==> Reversed(s)[i] == s[|s| - 1 - i]
  {
    if s != [] {
      ReversedAt(s[..|s| - 1]);
    }
  }

  /** What is still to come, then the digits so far from the last to the first. */
  ghost predicate Written(n: nat, num: nat, digits: string) {
    && Decimal(n) == (if num > 0 then Decimal(num) else []) + Reversed(digits)
    && |Decimal(n)| == (if num > 0 then |Decimal(num)| else 0) + |digits|
  }

  lemma DecimalStep(num: nat)
    requires num > 0
    ensures Decimal(num) == (if num / 10 > 0 then Decimal(num / 10) else []) + [Digit(num % 10)]
  {}

  lemma ReversedStep(digits: string, c: char)
    ensures Reversed(digits + [c]) == [c] + Reversed(digits)
  {
    assert (digits + [c])[..|digits|] == digits;
  }

  lemma NextDigit(n: nat, num: nat, digits: string)
    requires num > 0 && Written(n, num, digits)
    ensures Written(n, num / 10, digits + [Digit(num % 10)])
    ensures |digits| < |Decimal(n)|
  {
    hide Decimal, Reversed;
    var c := Digit(num % 10);
    DecimalStep(num);
    ReversedStep(digits, c);
    var high := if num / 10 > 0 then Decimal(num / 10) else [];
    assert (high + [c]) + Reversed(digits) == high + ([c] + Reversed(digits));
  }

  lemma ZeroAndStart(n: nat)
    ensures Decimal(0) == "0" && (n > 0 ==> Written(n, n, []))
  {
    assert Decimal(n) + [] == Decimal(n);
  }

  lemma AllWritten(n: nat, digits: string)
    requires Written(n, 0, digits)
    ensures Decimal(n) == Reversed(digits)
  {
    assert [] + Reversed(digits) == Reversed(digits);
  }

  /** The digits come out last first, into a buffer of twenty; the buffer always suffices. */
  method U64ToString(n: nat) returns (s: string)
    requires n <= U64_MAX
    ensures s == Decimal(n)
  {
    hide Written, Decimal, Reversed;
    ZeroAndStart(n);
    if n == 0 {
      return "0";
    }
    var digits := new char[20];
    assert digits[..0] == [];
    var count := 0;
    var num := n;
    U64Digits(n);
    while num > 0
      invariant 0 <= count <= 20 && Written(n, num, digits[..count])
    {
      ghost var before := digits[..count];
      NextDigit(n, num, before);
      digits[count] := Digit(num % 10);
      assert digits[..count + 1] == before + [Digit(num % 10)];
      count := count + 1;
      num := num / 10;
    }
    ghost var written := digits[..count];
    AllWritten(n, written);
    ReversedAt(written);
    var buf := new char[20];
    for i := 0 to count
      invariant digits[..count] == written
      invariant forall j :: 0 <= j < i ==> buf[j] == written[count - 1 - j]
    {
      assert digits[..count][count - 1 - i] == digits[count - 1 - i];
      buf[i] := digits[count - 1 - i];
    }
    s := buf[..count];
    assert s == Reversed(written);
  }

  // ----- Eight bytes -----

  type Byte = b: int | 0 <= b < 256

  const TWO_64 := 0x1_0000_0000_0000_0000

  function Pow256(k: nat): (p: nat)
    ensures p > 0
  {
    if k == 0 then 1 else 256 * Pow256(k - 1)
  }

  /** The lowest `k` bytes of a number, most significant first. */
  function BigEndian(n: nat, k: nat): (bytes: seq<Byte>)
    ensures |bytes| == k
    decreases k
  {
    if k == 0 then [] else BigEndian(n / 256, k - 1) + [n % 256]
  }

  function FromBigEndian(bytes: seq<Byte>): nat {
    if bytes == [] then 0 else 256 * FromBigEndian(bytes[..|bytes| - 1]) + bytes[|bytes| - 1]
  }

  lemma {:induction false} BytesRoundTrip(n: nat, k: nat)
    requires n < Pow256(k)
    ensures FromBigEndian(BigEndian(n, k)) == n
    decreases k
  {
    if k > 0 {
      BytesRoundTrip(n / 256, k - 1);
      assert BigEndian(n, k)[..k - 1] == BigEndian(n / 256, k - 1);
    }
  }

  lemma {:induction false} NumberRoundTrip(bytes: seq<Byte>)
    ensures FromBigEndian(bytes) < Pow256(|bytes|)
    ensures BigEndian(FromBigEndian(bytes), |bytes|) == bytes
  {
    if bytes != [] {
      var k := |bytes| - 1;
      NumberRoundTrip(bytes[..k]);
      var high, low := FromBigEndian(bytes[..k]), bytes[k];
      assert (256 * high + low) / 256 == high && (256 * high + low) % 256 == low;
      assert bytes == bytes[..k] + [low];
    }
  }

  /** Byte `i`, or zero past the end of the data. */
  function ByteAt(data: seq<Byte>, i: nat): Byte {
    if i < |data| then data[i] else 0
  }

  /** The `k` bytes from an offset on, filled up with zeros. */
  function Window(data: seq<Byte>, offset: nat, k: nat): (w: seq<Byte>)
    ensures |w| == k && forall i :: 0 <= i < k ==> w[i] == ByteAt(data, offset + i)
  {
    if k == 0 then [] else Window(data, offset, k - 1) + [ByteAt(data, offset + k - 1)]
  }

  lemma PowersOf256()
    ensures Pow256(8) == TWO_64
  {
    assert Pow256(4) == 0x1_0000_0000;
  }

  lemma {:induction false} Pow256Grows(i: nat, k: nat)
    requires i <= k
    ensures Pow256(i) <= Pow256(k)
    decreases k
  {
    if i < k {
      Pow256Grows(i, k - 1);
    }
  }

  /** Reads eight bytes at an offset. Shifting by a byte drops what leaves the 64 bits, and the
      byte that is put in lands on cleared bits; here nothing is ever dropped. */
  method ReadU64FromBytes(data: seq<Byte>, offset: nat) returns (result: nat)
    ensures result == FromBigEndian(Window(data, offset, 8)) <= U64_MAX
  {
    hide FromBigEndian, Window, Pow256;
    NoBytes(data, offset);
    result := 0;
    for i := 0 to 8
      invariant result == FromBigEndian(Window(data, offset, i))
    {
      NextByte(data, offset, i);
      var byte := ByteAt(data, offset + i);
      result := (result * 256) % TWO_64 + byte;
    }
    NumberRoundTrip(Window(data, offset, 8));
    PowersOf256();
  }

  lemma NoBytes(data: seq<Byte>, offset: nat)
    ensures FromBigEndian(Window(data, offset, 0)) == 0
  {}

  lemma NextByte(data: seq<Byte>, offset: nat, i: nat)
    requires i < 8
    ensures var n := FromBigEndian(Window(data, offset, i));
            n * 256 < TWO_64 && FromBigEndian(Window(data, offset, i + 1)) == n * 256 + ByteAt(data, offset + i)
  {
    NumberRoundTrip(Window(data, offset, i));
    Pow256Grows(i + 1, 8);
    PowersOf256();
    assert Window(data, offset, i + 1)[..i] == Window(data, offset, i);
  }

  /** Reading inverts writing, wherever in the data the eight bytes stand; and whatever is read,
      missing bytes included, writing it gives back the eight bytes. */
  lemma ReadInvertsWrite(before: seq<Byte>, n: nat, after: seq<Byte>, data: seq<Byte>, offset: nat)
    requires n <= U64_MAX
    ensures FromBigEndian(Window(before + BigEndian(n, 8) + after, |before|, 8)) == n
    ensures BigEndian(FromBigEndian(Window(data, offset, 8)), 8) == Window(data, offset, 8)
  {
    PowersOf256();
    BytesRoundTrip(n, 8);
    assert Window(before + BigEndian(n, 8) + after, |before|, 8) == BigEndian(n, 8);
    NumberRoundTrip(Window(data, offset, 8));
  }
}
