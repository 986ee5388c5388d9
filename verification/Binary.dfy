/** Binary numbers as strings and lists, and Gray codes. */
module Binary {
  import opened Collections

  function Pow2(n: nat): (p: nat)
    ensures p >= 1
  {
    if n == 0 then 1 else 2 * Pow2(n - 1)
  }

  function Bit(i: nat): char {
    if i % 2 == 1 then '1' else '0'
  }

  /** The n lowest bits of i, most significant bit first. */
  function Msb(i: nat, n: nat): (s: string)
    ensures |s| == n
  {
    if n == 0 then "" else Msb(i / 2, n - 1) + [Bit(i)]
  }

  /** The n lowest bits of i, least significant bit first. */
  function Lsb(i: nat, n: nat): (s: string)
    ensures |s| == n
  {
    if n == 0 then "" else [Bit(i)] + Lsb(i / 2, n - 1)
  }

  predicate IsBinary(s: string) {
    forall i :: 0 <= i < |s| ==> s[i] == '0' || s[i] == '1'
  }

  function Value(s: string): nat {
    if s == "" then 0 else 2 * Value(s[..|s| - 1]) + (if s[|s| - 1] == '1' then 1 else 0)
  }

  lemma {:induction false} ValueOfMsb(i: nat, n: nat)
    requires i < Pow2(n)
    ensures IsBinary(Msb(i, n)) && Value(Msb(i, n)) == i
  {
    if n > 0 {
      ValueOfMsb(i / 2, n - 1);
      assert Msb(i, n)[..n - 1] == Msb(i / 2, n - 1);
    }
  }

  lemma {:induction false} MsbOfValue(s: string)
    requires IsBinary(s)
    ensures Value(s) < Pow2(|s|) && Msb(Value(s), |s|) == s
  {
    if s != "" {
      var n := |s| - 1;
      MsbOfValue(s[..n]);
      assert s == s[..n] + [s[n]];
      assert Value(s) / 2 == Value(s[..n]);
    }
  }

  // ----- int2bin and bin2int

  datatype Converted = Bits(s: string) | ValueError | KeyError

  function Nibble(d: nat): string
    requires d < 16
  {
    [Bit(d / 8), Bit(d / 4), Bit(d / 2), Bit(d)]
  }

  /** The hexadecimal digits of i, each replaced by its four bits. */
  function HexBits(i: nat): string {
    (if i < 16 then "" else HexBits(i / 16)) + Nibble(i % 16)
  }

  /** Where a Python slice bound falls in a sequence of the given length. */
  function Bound(length: nat, k: int): (b: nat)
    ensures b <= length
  {
    if k < 0 then (if length + k < 0 then 0 else length + k) else if k < length then k else length
  }

  /** A negative number's hexadecimal form does not start with the two characters that are cut off. */
  function Int2Bin(i: int, n: int): Converted {
    if i < 0 then KeyError else Fit(HexBits(i), n)
  }

  /** Cut off or pad to n characters; no one may be cut off. */
  function Fit(result: string, n: int): Converted {
    if '1' in result[..Bound(|result|, -n)] then ValueError
    else
      var kept := result[Bound(|result|, -n)..];
      Bits(Zeros(n - |kept|) + kept)
  }

  function Zeros(n: int): string {
    seq(if n < 0 then 0 else n, _ => '0')
  }

  /** int(bin_string, 2), for strings of digits only; None stands for the ValueError. */
  function Bin2Int(s: string): Option<nat> {
    if s != "" && IsBinary(s) then Some(Value(s)) else None
  }

  /** i shifted right by b bits. */
  function Shift(i: nat, b: nat): nat {
    if b == 0 then i else Shift(i / 2, b - 1)
  }

  lemma {:induction false} ShiftLess(i: nat, a: nat, b: nat)
    ensures Shift(i, b) < Pow2(a) <==> i < Pow2(a + b)
  {
    if b > 0 {
      ShiftLess(i / 2, a, b - 1);
      assert Pow2(a + b) == 2 * Pow2(a + b - 1);
    }
  }

  /** The high a bits and the low b bits. */
  lemma {:induction false} MsbSplit(i: nat, a: nat, b: nat)
    ensures Msb(i, a + b) == Msb(Shift(i, b), a) + Msb(i, b)
  {
    if b == 0 {
      assert Msb(i, a) + "" == Msb(i, a);
    } else {
      MsbSplit(i / 2, a, b - 1);
      var high, low := Msb(Shift(i, b), a), Msb(i / 2, b - 1);
      assert Msb(i, a + b) == Msb(i / 2, a + b - 1) + [Bit(i)];
      assert high + low + [Bit(i)] == high + (low + [Bit(i)]);
    }
  }

  lemma {:induction false} OnesInMsb(i: nat, n: nat)
    requires i < Pow2(n)
    ensures '1' in Msb(i, n) <==> i != 0
    ensures i == 0 ==> Msb(i, n) == Zeros(n)
  {
    if n > 0 {
      OnesInMsb(i / 2, n - 1);
    }
  }

  lemma FourBits(i: nat)
    ensures Msb(i, 4) == [Bit(i / 8), Bit(i / 4), Bit(i / 2), Bit(i)]
  {
    assert Msb(i, 4) == Msb(i / 2, 3) + [Bit(i)];
    assert Msb(i / 2, 3) == Msb(i / 4, 2) + [Bit(i / 2)] by { assert i / 2 / 2 == i / 4; }
    assert Msb(i / 4, 2) == Msb(i / 8, 1) + [Bit(i / 4)] by { assert i / 4 / 2 == i / 8; }
    assert Msb(i / 8, 1) == Msb(i / 8 / 2, 0) + [Bit(i / 8)];
  }

  lemma NibbleIsMsb(i: nat)
    ensures Nibble(i % 16) == Msb(i, 4)
  {
    FourBits(i);
    BitsOfRemainder(i, i / 16, i % 16);
  }

  lemma BitsOfRemainder(i: nat, q: nat, d: nat)
    requires i == 16 * q + d && d < 16
    ensures Bit(d / 8) == Bit(i / 8) && Bit(d / 4) == Bit(i / 4) && Bit(d / 2) == Bit(i / 2) && Bit(d) == Bit(i)
  {
    SameBit(d / 8, i / 8, q) by { assert i / 8 == 2 * q + d / 8; }
    SameBit(d / 4, i / 4, 2 * q) by { assert i / 4 == 4 * q + d / 4; }
    SameBit(d / 2, i / 2, 4 * q) by { assert i / 2 == 8 * q + d / 2; }
    SameBit(d, i, 8 * q);
  }

  lemma SameBit(x: nat, y: nat, k: nat)
    requires y == 2 * k + x
    ensures Bit(x) == Bit(y)
  {
  }

  lemma ShiftFour(i: nat)
    ensures Shift(i, 4) == i / 16
  {
    assert Shift(i, 4) == Shift(i / 2, 3) == Shift(i / 2 / 2, 2)
           == Shift(i / 2 / 2 / 2, 1) == Shift(i / 2 / 2 / 2 / 2, 0);
  }

  lemma {:induction false} HexBitsAreMsb(i: nat)
    ensures i < Pow2(|HexBits(i)|) && HexBits(i) == Msb(i, |HexBits(i)|)
  {
    NibbleIsMsb(i);
    ShiftFour(i);
    if i < 16 {
      ShiftLess(i, 0, 4);
      assert HexBits(i) == Nibble(i % 16);
    } else {
      var k := |HexBits(i / 16)|;
      HexBitsAreMsb(i / 16);
      MsbSplit(i, k, 4);
      ShiftLess(i, k, 4);
    }
  }

  /** int2bin gives the n bits of every i that has no more, and fails for the others. */
  lemma Int2BinIsMsb(i: nat, n: nat)
    requires n >= 1
    ensures Int2Bin(i, n) == if i < Pow2(n) then Bits(Msb(i, n)) else ValueError
  {
    HexBitsAreMsb(i);
    FitBits(i, n, HexBits(i));
  }

  lemma {:induction false} HexBitsFour(i: nat)
    ensures |HexBits(i)| % 4 == 0
  {
    if i >= 16 {
      HexBitsFour(i / 16);
    }
  }

  /** With a width of 0 nothing is cut off: the whole nibbles of the hexadecimal form remain. */
  lemma Int2BinWidthZero(i: nat)
    ensures Int2Bin(i, 0).Bits? && |Int2Bin(i, 0).s| % 4 == 0
    ensures IsBinary(Int2Bin(i, 0).s) && Value(Int2Bin(i, 0).s) == i
  {
    var bits := HexBits(i);
    HexBitsFour(i);
    HexBitsAreMsb(i);
    ValueOfMsb(i, |bits|);
    assert bits[..0] == "" && bits[0..] == bits && Zeros(0 - |bits|) == "";
    assert Zeros(0 - |bits|) + bits == bits;
  }

  lemma FitBits(i: nat, n: nat, bits: string)
    requires n >= 1 && i < Pow2(|bits|) && bits == Msb(i, |bits|)
    ensures Fit(bits, n) == if i < Pow2(n) then Bits(Msb(i, n)) else ValueError
  {
    var m := |bits|;
    if n <= m {
      Truncate(i, n, m - n, bits);
    } else {
      Pad(i, n, m);
    }
  }

  /** The a + n bits of i cut down to n. */
  lemma Truncate(i: nat, n: nat, a: nat, bits: string)
    requires i < Pow2(a + n) && bits == Msb(i, a + n)
    ensures '1' in bits[..a] <==> i >= Pow2(n)
    ensures bits[a..] == Msb(i, n) && Zeros(n - |bits[a..]|) + bits[a..] == Msb(i, n)
  {
    MsbSplit(i, a, n);
    HighPart(i, n, a);
    var high := Msb(Shift(i, n), a);
    assert bits[..a] == high && bits[a..] == Msb(i, n);
    assert Zeros(0) == "";
  }

  lemma HighPart(i: nat, n: nat, a: nat)
    requires i < Pow2(a + n)
    ensures '1' in Msb(Shift(i, n), a) <==> i >= Pow2(n)
  {
    ShiftLess(i, a, n);
    ShiftLess(i, 0, n);
    OnesInMsb(Shift(i, n), a);
  }

  /** The m bits of i padded to n. */
  lemma Pad(i: nat, n: nat, m: nat)
    requires m < n && i < Pow2(m)
    ensures i < Pow2(n) && Zeros(n - m) + Msb(i, m) == Msb(i, n)
    ensures Msb(i, m)[0..] == Msb(i, m) && '1' !in Msb(i, m)[..0]
  {
    MsbSplit(i, n - m, m);
    ShiftLess(i, 0, m);
    ShiftLess(i, n - m, m);
    OnesInMsb(0, n - m);
  }

  /** bin2int undoes int2bin, and int2bin undoes bin2int at the string's own width. */
  lemma BinaryRoundTrip(i: nat, n: nat, s: string)
    requires n >= 1 && i < Pow2(n) && s != "" && IsBinary(s)
    ensures Int2Bin(i, n).Bits? && Bin2Int(Int2Bin(i, n).s) == Some(i)
    ensures Bin2Int(s).Some? && Int2Bin(Bin2Int(s).value, |s|) == Bits(s)
  {
    Int2BinIsMsb(i, n);
    ValueOfMsb(i, n);
    MsbOfValue(s);
    Int2BinIsMsb(Value(s), |s|);
  }

  // ----- binary_range

  function Reverse(s: string): string {
    if s == "" then "" else Reverse(s[1..]) + [s[0]]
  }

  lemma {:induction false} ReverseLsb(i: nat, n: nat)
    ensures Reverse(Lsb(i, n)) == Msb(i, n)
  {
    if n > 0 {
      ReverseLsb(i / 2, n - 1);
      assert Lsb(i, n)[1..] == Lsb(i / 2, n - 1);
    }
  }

  predicate AllAre(s: string, c: char, n: nat)
    requires n <= |s|
  {
    forall j :: 0 <= j < n ==> s[j] == c
  }

  /** Adding one: the ones below the lowest zero become zeros, that zero becomes a one. */
  lemma {:induction false} AddOne(k: nat, n: nat, p: nat)
    requires k < Pow2(n) && p < n && AllAre(Lsb(k, n), '1', p) && Lsb(k, n)[p] == '0'
    ensures k + 1 < Pow2(n)
    ensures AllAre(Lsb(k + 1, n), '0', p) && Lsb(k + 1, n)[p] == '1' && Lsb(k + 1, n)[p + 1..] == Lsb(k, n)[p + 1..]
  {
    var s, t := Lsb(k / 2, n - 1), Lsb((k + 1) / 2, n - 1);
    assert Lsb(k, n) == [Bit(k)] + s && Lsb(k + 1, n) == [Bit(k + 1)] + t;
    if p == 0 {
      assert (k + 1) / 2 == k / 2;
    } else {
      assert Bit(k) == Lsb(k, n)[0] == '1';
      assert (k + 1) / 2 == k / 2 + 1;
      assert forall j :: 0 <= j < p - 1 ==> s[j] == Lsb(k, n)[j + 1];
      AddOne(k / 2, n - 1, p - 1);
      PrependBit(Bit(k), s, Bit(k + 1), t, p);
    }
  }

  lemma PrependBit(b: char, s: string, c: char, t: string, p: nat)
    requires |s| == |t| && 0 < p <= |s| && c == '0' && AllAre(t, '0', p - 1) && t[p - 1] == '1' && t[p..] == s[p..]
    ensures AllAre([c] + t, '0', p) && ([c] + t)[p] == '1' && ([c] + t)[p + 1..] == ([b] + s)[p + 1..]
  {
    assert ([c] + t)[p + 1..] == t[p..] && ([b] + s)[p + 1..] == s[p..];
  }

  lemma {:induction false} AllOnes(k: nat, n: nat)
    requires k < Pow2(n)
    ensures AllAre(Lsb(k, n), '1', n) <==> k == Pow2(n) - 1
  {
    if n > 0 {
      var s := Lsb(k, n);
      AllOnes(k / 2, n - 1);
      assert AllAre(s, '1', n) <==> s[0] == '1' && AllAre(Lsb(k / 2, n - 1), '1', n - 1) by {
        assert s[1..] == Lsb(k / 2, n - 1);
        assert forall j :: 0 <= j < n - 1 ==> s[1..][j] == s[j + 1];
        assert forall j :: 1 <= j < n ==> s[j] == s[1..][j - 1];
      }
    }
  }

  lemma {:induction false} LsbZero(n: nat)
    ensures AllAre(Lsb(0, n), '0', n)
  {
    if n > 0 {
      LsbZero(n - 1);
    }
  }

  /**
   * The state of the carry at position i: below it all ones became zeros, and unless the carry
   * goes on the zero just below i became a one; from i on nothing has changed.
   */
  predicate Carried(low: string, v: string, i: nat, carry: bool) {
    && i <= |v| == |low| && v[i..] == low[i..]
    && if carry then AllAre(low, '1', i) && AllAre(v, '0', i)
       else i > 0 && AllAre(low, '1', i - 1) && low[i - 1] == '0' && AllAre(v, '0', i - 1) && v[i - 1] == '1'
  }

  lemma CarryOn(low: string, v: string, i: nat)
    requires Carried(low, v, i, true) && i < |v|
    ensures v[i] == low[i]
    ensures v[i] == '0' ==> Carried(low, v[i := '1'], i + 1, false)
    ensures v[i] == '1' ==> Carried(low, v[i := '0'], i + 1, true)
  {
    assert v[i..][0] == low[i..][0];
    assert v[i + 1..] == v[i..][1..] && low[i + 1..] == low[i..][1..];
  }

  lemma {:induction false} LsbBinary(k: nat, n: nat)
    ensures IsBinary(Lsb(k, n))
  {
    if n > 0 {
      LsbBinary(k / 2, n - 1);
    }
  }

  /** The carry has stopped: v is the next number, or there is none. */
  lemma CarryDone(k: nat, v: string, i: nat, carry: bool)
    requires k < Pow2(|v|) && Carried(Lsb(k, |v|), v, i, carry) && (i == |v| || !carry)
    ensures carry <==> k + 1 == Pow2(|v|)
    ensures !carry ==> v == Lsb(k + 1, |v|)
  {
    AllOnes(k, |v|);
    if !carry {
      var n, t := |v|, Lsb(k + 1, |v|);
      AddOne(k, n, i - 1);
      assert t[i..] == v[i..];
      forall j | 0 <= j < n ensures v[j] == t[j] {
        if j >= i {
          assert v[j] == v[i..][j - i] == t[i..][j - i];
        }
      }
    }
  }

  /** The inner loop of binary_range: ripple-carry. The last toggle is the carry out of the last bit. */
  method Ripple(v: array<char>, ghost k: nat) returns (toggle: array<int>)
    requires v.Length > 0 && k < Pow2(v.Length) && v[..] == Lsb(k, v.Length)
    modifies v
    ensures fresh(toggle) && toggle.Length == v.Length + 1
    ensures toggle[v.Length] == 1 <==> k + 1 == Pow2(v.Length)
    ensures k + 1 < Pow2(v.Length) ==> v[..] == Lsb(k + 1, v.Length)
  {
    var bits := v.Length;
    ghost var low := v[..];
    LsbBinary(k, bits);
    toggle := new int[bits + 1](j => if j == 0 then 1 else 0);
    var i := 0;
    while i < bits && toggle[i] == 1
      invariant 0 <= i <= bits && Carried(low, v[..], i, toggle[i] == 1)
      invariant forall j :: i < j <= bits ==> toggle[j] == 0
    {
      CarryOn(low, v[..], i);
      if v[i] == '0' {
        v[i] := '1';
        toggle[i + 1] := 0;
      } else {
        v[i] := '0';
        toggle[i + 1] := 1;
      }
      i := i + 1;
    }
    CarryDone(k, v[..], i, toggle[i] == 1);
  }

  /** All numbers of the given width, in order. */
  function Range(bits: nat, count: nat): (r: seq<string>)
    ensures |r| == count
  {
    seq(count, k requires 0 <= k < count => Msb(k, bits))
  }

  method BinaryRange(bits: nat) returns (l: seq<string>)
    ensures l == if bits == 0 then [] else Range(bits, Pow2(bits))
  {
    l := [];
    var v := new char[bits](_ => '0');
    var toggle := new int[bits + 1](j => if j == 0 then 1 else 0);
    if bits == 0 {
      return;
    }
    LsbZero(bits);
    assert v[..] == Lsb(0, bits);
    ghost var k := 0;
    while toggle[bits] != 1
      invariant toggle.Length == bits + 1 && k <= Pow2(bits) && l == Range(bits, k)
      invariant toggle[bits] == 1 <==> k == Pow2(bits)
      invariant k < Pow2(bits) ==> v[..] == Lsb(k, bits)
      decreases Pow2(bits) - k
    {
      ReverseLsb(k, bits);
      l := l + [Reverse(v[..])];
      toggle := Ripple(v, k);
      k := k + 1;
    }
  }

  /** The list has 2^bits strings, each the int2bin of its position. */
  lemma RangeCounts(bits: nat, k: nat)
    requires bits >= 1 && k < Pow2(bits)
    ensures Int2Bin(k, bits) == Bits(Range(bits, Pow2(bits))[k])
  {
    Int2BinIsMsb(k, bits);
  }

  // ----- Gray codes

  predicate Odd(i: nat) {
    i % 2 == 1
  }

  /** Twice x, plus one if the bit is set. */
  function Append(x: nat, bit: bool): (y: nat)
    ensures y / 2 == x && Odd(y) == bit
  {
    if bit then 2 * x + 1 else 2 * x
  }

  lemma SameHalves(x: nat, y: nat)
    requires x / 2 == y / 2 && Odd(x) == Odd(y)
    ensures x == y
  {
  }

  /** Exclusive or of two numbers that are not negative. */
  function Xor(a: nat, b: nat): nat
    decreases a + b
  {
    if a == 0 && b == 0 then 0 else Append(Xor(a / 2, b / 2), Odd(a) != Odd(b))
  }

  function GrayEncode(i: nat): nat {
    Xor(i, Shift(i, 1))
  }

  /** How many bits are set. */
  function Ones(i: nat): nat {
    if i == 0 then 0 else Ones(i / 2) + if Odd(i) then 1 else 0
  }

  /** The code bit by bit: each bit against the next higher one. */
  function Gray(i: nat): nat {
    if i == 0 then 0 else Append(Gray(i / 2), Odd(i) != Odd(i / 2))
  }

  /** The number whose code is g. */
  function GrayDecode(g: nat): nat {
    if g == 0 then 0
    else Append(GrayDecode(g / 2), Odd(g) != Odd(GrayDecode(g / 2)))
  }

  lemma XorParts(a: nat, b: nat)
    ensures Xor(a, b) / 2 == Xor(a / 2, b / 2) && Odd(Xor(a, b)) == (Odd(a) != Odd(b))
  {
  }

  lemma GrayParts(i: nat)
    ensures Gray(i) / 2 == Gray(i / 2) && Odd(Gray(i)) == (Odd(i) != Odd(i / 2))
  {
  }

  lemma DecodeParts(g: nat)
    ensures GrayDecode(g) / 2 == GrayDecode(g / 2) && Odd(GrayDecode(g)) == (Odd(g) != Odd(GrayDecode(g / 2)))
  {
  }

  lemma OnesParts(x: nat)
    ensures Ones(x) == Ones(x / 2) + if Odd(x) then 1 else 0
  {
  }

  lemma {:induction false} GrayEncodeIsGray(i: nat)
    ensures GrayEncode(i) == Gray(i)
  {
    assert Shift(i, 1) == i / 2;
    if i > 0 {
      GrayEncodeIsGray(i / 2);
      assert Shift(i / 2, 1) == i / 2 / 2;
      XorParts(i, i / 2);
      GrayParts(i);
      SameHalves(Xor(i, i / 2), Gray(i));
    }
  }

  lemma Halve(i: nat, n: nat)
    requires n > 0
    ensures i < Pow2(n) <==> i / 2 < Pow2(n - 1)
  {
  }

  lemma {:induction false} GrayDecodes(i: nat, n: nat)
    requires i < Pow2(n)
    ensures Gray(i) < Pow2(n) && GrayDecode(Gray(i)) == i
  {
    if n > 0 {
      var g := Gray(i);
      Halve(i, n);
      GrayDecodes(i / 2, n - 1);
      GrayParts(i);
      Halve(g, n);
      DecodeParts(g);
      SameHalves(GrayDecode(g), i);
    }
  }

  lemma {:induction false} GrayEncodes(g: nat, n: nat)
    requires g < Pow2(n)
    ensures GrayDecode(g) < Pow2(n) && Gray(GrayDecode(g)) == g
  {
    if n > 0 {
      var i := GrayDecode(g);
      Halve(g, n);
      GrayEncodes(g / 2, n - 1);
      DecodeParts(g);
      Halve(i, n);
      GrayParts(i);
      SameHalves(Gray(i), g);
    }
  }

  lemma {:induction false} XorSelf(a: nat)
    ensures Xor(a, a) == 0
  {
    if a > 0 {
      XorSelf(a / 2);
    }
  }

  lemma {:induction false} GrayNeighbours(i: nat)
    ensures Ones(Xor(Gray(i), Gray(i + 1))) == 1
  {
    var a, b := Gray(i), Gray(i + 1);
    GrayParts(i);
    GrayParts(i + 1);
    XorParts(a, b);
    OnesParts(Xor(a, b));
    if Odd(i) {
      assert (i + 1) / 2 == i / 2 + 1 && Odd(i / 2) != Odd(i / 2 + 1);
      GrayNeighbours(i / 2);
    } else {
      assert (i + 1) / 2 == i / 2;
      XorSelf(a / 2);
    }
  }

  /** One more bit set below an odd number changes nothing in its code but the place. */
  lemma OddTwice(i: nat)
    requires Odd(i) && Odd(i / 2)
    ensures Ones(Xor(Gray(i), 0)) == Ones(Xor(Gray(i / 2), 0))
  {
    GrayParts(i);
    XorParts(Gray(i), 0);
    OnesParts(Xor(Gray(i), 0));
  }

  lemma BelowTwice(p: nat, q: nat)
    requires p == 2 * q && q >= 1
    ensures (p - 1) / 2 == q - 1 && Odd(p - 1)
  {
    assert p - 1 == 2 * (q - 1) + 1;
  }

  lemma LastOfWidth(n: nat)
    requires n >= 2
    ensures (Pow2(n) - 1) / 2 == Pow2(n - 1) - 1 && Odd(Pow2(n) - 1) && Odd(Pow2(n - 1) - 1)
  {
    BelowTwice(Pow2(n), Pow2(n - 1));
    BelowTwice(Pow2(n - 1), Pow2(n - 2));
  }

  lemma {:induction false} GrayWraps(n: nat)
    requires n >= 1
    ensures Ones(Xor(Gray(Pow2(n) - 1), Gray(0))) == 1
  {
    assert Gray(0) == 0;
    if n == 1 {
      GrayOfOne();
    } else {
      LastOfWidth(n);
      OddTwice(Pow2(n) - 1);
      GrayWraps(n - 1);
    }
  }

  lemma GrayOfOne()
    ensures Pow2(1) == 2 && Ones(Xor(Gray(1), 0)) == 1
  {
    GrayParts(1);
    XorParts(Gray(1), 0);
    OnesParts(Xor(Gray(1), 0));
    assert Gray(0) == 0 && Xor(0, 0) == 0 && Ones(0) == 0;
  }

  /** gray_encode maps the numbers below 2^n one to one onto themselves. */
  lemma GrayBijection(n: nat, i: nat, j: nat)
    requires i < Pow2(n) && j < Pow2(n)
    ensures GrayEncode(i) < Pow2(n) && (GrayEncode(i) == GrayEncode(j) ==> i == j)
    ensures exists k: nat :: k < Pow2(n) && GrayEncode(k) == i
  {
    GrayEncodeIsGray(i);
    GrayEncodeIsGray(j);
    GrayDecodes(i, n);
    GrayDecodes(j, n);
    GrayEncodes(i, n);
    GrayEncodeIsGray(GrayDecode(i));
  }

  /** Neighbouring codes differ in exactly one bit, also the last one below 2^n and the first one. */
  lemma GrayStepsOneBit(n: nat, i: nat)
    requires n >= 1 && i < Pow2(n)
    ensures Ones(Xor(GrayEncode(i), GrayEncode(if i + 1 == Pow2(n) then 0 else i + 1))) == 1
  {
    GrayEncodeIsGray(i);
    GrayEncodeIsGray(i + 1);
    GrayEncodeIsGray(0);
    GrayNeighbours(i);
    GrayWraps(n);
  }
}
