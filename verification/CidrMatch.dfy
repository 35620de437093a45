/** Two ways of testing a prefix: byte by byte with a mask, and by shifting one big number. */
module CidrMatch {
  type Bytes = seq<bv8>

  /** The big-endian number. */
  function ValueOf(b: Bytes): nat {
    if b == [] then 0 else ValueOf(b[..|b| - 1]) * 256 + b[|b| - 1] as nat
  }

  /** The source's `>>` on big integers. */
  function Shift(x: nat, bits: nat): nat {
    if bits == 0 then x else Shift(x / 2, bits - 1)
  }

  predicate HasPrefix(value: nat, network: nat, width: nat, bits: nat)
    requires bits <= width
  {
    Shift(value, width - bits) == Shift(network, width - bits)
  }

  function Mask(bits: nat): bv8
    requires 0 < bits < 8
  {
    (0xff as bv8) << (8 - bits)
  }

  predicate MaskedEqual(a: bv8, b: bv8, bits: nat)
    requires 0 < bits < 8
  {
    a & Mask(bits) == b & Mask(bits)
  }

  /** The byte loop of the contracts package, on addresses of one family. */
  method CidrContains(network: Bytes, address: Bytes, prefix: nat) returns (inside: bool)
    requires |network| == |address| ==> prefix <= 8 * |network|
    ensures inside <==> |network| == |address| && HasPrefix(ValueOf(address), ValueOf(network), 8 * |network|, prefix)
  {
    if |network| != |address| {
      return false;
    }
    var complete, remaining := prefix / 8, prefix % 8;
    for index := 0 to complete
      invariant network[..index] == address[..index]
    {
      if network[index] != address[index] {
        WholeBytes(address, network, index + 1, 8 * |network| - prefix);
        assert network[..index + 1][index] != address[..index + 1][index];
        return false;
      }
    }
    if remaining == 0 {
      BytePrefix(address, network, complete);
      return true;
    }
    BitPrefix(address, network, complete, remaining);
    return MaskedEqual(network[complete], address[complete], remaining);
  }

  // ---------------------------------------------------------------- shifting

  lemma {:induction false} ShiftAdds(x: nat, a: nat, b: nat)
    ensures Shift(x, a + b) == Shift(Shift(x, a), b)
    decreases a
  {
    if a > 0 {
      ShiftAdds(x / 2, a - 1, b);
    }
  }

  lemma ShiftByte(x: nat, y: bv8)
    ensures Shift(x * 256 + y as nat, 8) == x
  {
    Powers();
    ShiftSplits(x, y as nat, 8, 8);
    ShiftBelow(y as nat, 8, 8);
  }

  /** Shifting whole bytes out leaves the leading bytes. */
  lemma {:induction false} ShiftBytes(b: Bytes, kept: nat)
    requires kept <= |b|
    ensures Shift(ValueOf(b), 8 * (|b| - kept)) == ValueOf(b[..kept])
    decreases |b|
  {
    if kept == |b| {
      assert b[..kept] == b;
    } else {
      var front := b[..|b| - 1];
      ShiftByte(ValueOf(front), b[|b| - 1]);
      ShiftAdds(ValueOf(b), 8, 8 * (|front| - kept));
      ShiftBytes(front, kept);
      assert front[..kept] == b[..kept];
    }
  }

  lemma {:induction false} ValueIsInjective(a: Bytes, b: Bytes)
    requires |a| == |b| && ValueOf(a) == ValueOf(b)
    ensures a == b
  {
    hide Shift;
    if a != [] {
      ShiftByte(ValueOf(a[..|a| - 1]), a[|a| - 1]);
      ShiftByte(ValueOf(b[..|b| - 1]), b[|b| - 1]);
      ValueIsInjective(a[..|a| - 1], b[..|b| - 1]);
      assert a == a[..|a| - 1] + [a[|a| - 1]] && b == b[..|b| - 1] + [b[|b| - 1]];
    }
  }

  lemma {:induction false} ShiftKeepsEqual(x: nat, y: nat, a: nat, b: nat)
    requires Shift(x, a) == Shift(y, a) && a <= b
    ensures Shift(x, b) == Shift(y, b)
  {
    ShiftAdds(x, a, b - a);
    ShiftAdds(y, a, b - a);
  }

  /** Equal after a shift that still keeps `n` bytes means those bytes are equal. */
  lemma {:induction false} WholeBytes(a: Bytes, b: Bytes, n: nat, shift: nat)
    requires |a| == |b| && n <= |a| && shift <= 8 * (|a| - n)
    ensures Shift(ValueOf(a), shift) == Shift(ValueOf(b), shift) ==> a[..n] == b[..n]
  {
    if Shift(ValueOf(a), shift) == Shift(ValueOf(b), shift) {
      ShiftKeepsEqual(ValueOf(a), ValueOf(b), shift, 8 * (|a| - n));
      ShiftBytes(a, n);
      ShiftBytes(b, n);
      ValueIsInjective(a[..n], b[..n]);
    }
  }

  lemma {:induction false} BytePrefix(a: Bytes, b: Bytes, n: nat)
    requires |a| == |b| && n <= |a|
    ensures Shift(ValueOf(a), 8 * (|a| - n)) == Shift(ValueOf(b), 8 * (|a| - n)) <==> a[..n] == b[..n]
  {
    ShiftBytes(a, n);
    ShiftBytes(b, n);
    WholeBytes(a, b, n, 8 * (|a| - n));
  }

  // ---------------------------------------------------------------- masks

  function HighBits(a: bv8, low: nat): bv8
    requires low < 8
  {
    a >> low
  }

  lemma Mask1(a: bv8, b: bv8)
    ensures MaskedEqual(a, b, 1) <==> HighBits(a, 7) == HighBits(b, 7)
  {
    assert Mask(1) == 0x80;
    assert a & 0x80 == b & 0x80 <==> a >> 7 == b >> 7;
  }

  lemma Mask2(a: bv8, b: bv8)
    ensures MaskedEqual(a, b, 2) <==> HighBits(a, 6) == HighBits(b, 6)
  {
    assert Mask(2) == 0xc0;
    assert a & 0xc0 == b & 0xc0 <==> a >> 6 == b >> 6;
  }

  lemma Mask3(a: bv8, b: bv8)
    ensures MaskedEqual(a, b, 3) <==> HighBits(a, 5) == HighBits(b, 5)
  {
    assert Mask(3) == 0xe0;
    assert a & 0xe0 == b & 0xe0 <==> a >> 5 == b >> 5;
  }

  lemma Mask4(a: bv8, b: bv8)
    ensures MaskedEqual(a, b, 4) <==> HighBits(a, 4) == HighBits(b, 4)
  {
    assert Mask(4) == 0xf0;
    assert a & 0xf0 == b & 0xf0 <==> a >> 4 == b >> 4;
  }

  lemma Mask5(a: bv8, b: bv8)
    ensures MaskedEqual(a, b, 5) <==> HighBits(a, 3) == HighBits(b, 3)
  {
    assert Mask(5) == 0xf8;
    assert a & 0xf8 == b & 0xf8 <==> a >> 3 == b >> 3;
  }

  lemma Mask6(a: bv8, b: bv8)
    ensures MaskedEqual(a, b, 6) <==> HighBits(a, 2) == HighBits(b, 2)
  {
    assert Mask(6) == 0xfc;
    assert a & 0xfc == b & 0xfc <==> a >> 2 == b >> 2;
  }

  lemma Mask7(a: bv8, b: bv8)
    ensures MaskedEqual(a, b, 7) <==> HighBits(a, 1) == HighBits(b, 1)
  {
    assert Mask(7) == 0xfe;
    assert a & 0xfe == b & 0xfe <==> a >> 1 == b >> 1;
  }

  /** A mask of the high bits compares what a shift of the low bits leaves. */
  lemma MaskIsShift(a: bv8, b: bv8, bits: nat)
    requires 0 < bits < 8
    ensures MaskedEqual(a, b, bits) <==> HighBits(a, 8 - bits) == HighBits(b, 8 - bits)
  {
    hide MaskedEqual, HighBits;
    match bits
    case 1 => Mask1(a, b);
    case 2 => Mask2(a, b);
    case 3 => Mask3(a, b);
    case 4 => Mask4(a, b);
    case 5 => Mask5(a, b);
    case 6 => Mask6(a, b);
    case 7 => Mask7(a, b);
  }

  lemma HalfByte(a: bv8)
    ensures HighBits(a, 1) as nat == a as nat / 2
  {
  }

  lemma {:induction false} ByteShift(a: bv8, low: nat)
    requires low < 8
    ensures HighBits(a, low) as nat == Shift(a as nat, low)
  {
    hide HighBits;
    if low == 0 {
      NoShift(a);
    } else {
      ByteShift(a, low - 1);
      HalfByte(HighBits(a, low - 1));
      ShiftTwice(a, low);
      ShiftAdds(a as nat, low - 1, 1);
    }
  }

  lemma NoShift(a: bv8)
    ensures HighBits(a, 0) == a
  {
  }

  lemma ShiftTwice(a: bv8, low: nat)
    requires 0 < low < 8
    ensures HighBits(HighBits(a, low - 1), 1) == HighBits(a, low)
  {
    if low == 1 {
    } else if low == 2 {
      assert (a >> 1) >> 1 == a >> 2;
    } else if low == 3 {
      assert (a >> 2) >> 1 == a >> 3;
    } else if low == 4 {
      assert (a >> 3) >> 1 == a >> 4;
    } else if low == 5 {
      assert (a >> 4) >> 1 == a >> 5;
    } else if low == 6 {
      assert (a >> 5) >> 1 == a >> 6;
    } else {
      assert (a >> 6) >> 1 == a >> 7;
    }
  }

  function Power2(n: nat): (p: nat)
    ensures p > 0
  {
    if n == 0 then 1 else 2 * Power2(n - 1)
  }

  lemma DoubledProduct(x: nat, half: nat)
    ensures x * (2 * half) == 2 * (x * half)
  {
  }

  lemma HalfOfSum(z: nat, y: nat)
    ensures (2 * z + y) / 2 == z + y / 2
  {
  }

  /** Shifting fewer than eight bits splits a number at its last byte. */
  lemma {:induction false} ShiftSplits(x: nat, y: nat, p: nat, bits: nat)
    requires bits <= p
    ensures Shift(x * Power2(p) + y, bits) == x * Power2(p - bits) + Shift(y, bits)
    decreases bits
  {
    if bits > 0 {
      var product := x * Power2(p - 1);
      DoubledProduct(x, Power2(p - 1));
      HalfOfSum(product, y);
      ShiftSplits(x, y / 2, p - 1, bits - 1);
    }
  }

  lemma {:induction false} ShiftBelow(y: nat, p: nat, bits: nat)
    requires bits <= p && y < Power2(p)
    ensures Shift(y, bits) < Power2(p - bits)
    decreases bits
  {
    if bits > 0 {
      ShiftBelow(y / 2, p - 1, bits - 1);
    }
  }

  /** Whole bytes and then a few bits. */
  lemma {:induction false} BitPrefix(a: Bytes, b: Bytes, n: nat, bits: nat)
    requires |a| == |b| && n < |a| && 0 < bits < 8 && a[..n] == b[..n]
    ensures var shift := 8 * |a| - (8 * n + bits);
            Shift(ValueOf(a), shift) == Shift(ValueOf(b), shift) <==> MaskedEqual(b[n], a[n], bits)
  {
    hide Shift, ValueOf, MaskedEqual;
    var rest, low := 8 * (|a| - (n + 1)), 8 - bits;
    ShiftAdds(ValueOf(a), rest, low);
    ShiftAdds(ValueOf(b), rest, low);
    ShiftBytes(a, n + 1);
    ShiftBytes(b, n + 1);
    assert a[..n + 1][..n] == a[..n] && b[..n + 1][..n] == b[..n];
    LastBits(a[..n + 1], b[..n + 1], bits);
  }

  lemma LastBits(a: Bytes, b: Bytes, bits: nat)
    requires |a| == |b| > 0 && 0 < bits < 8 && a[..|a| - 1] == b[..|b| - 1]
    ensures Shift(ValueOf(a), 8 - bits) == Shift(ValueOf(b), 8 - bits) <==> MaskedEqual(b[|b| - 1], a[|a| - 1], bits)
  {
    hide HighBits, MaskedEqual, Shift, Power2;
    ShiftLast(a, 8 - bits);
    ShiftLast(b, 8 - bits);
    MaskIsShift(b[|b| - 1], a[|a| - 1], bits);
  }

  lemma {:induction false} ShiftLast(a: Bytes, low: nat)
    requires a != [] && low < 8
    ensures Shift(ValueOf(a), low) == ValueOf(a[..|a| - 1]) * Power2(8 - low) + HighBits(a[|a| - 1], low) as nat
  {
    hide HighBits, Shift, Power2;
    Powers();
    ShiftSplits(ValueOf(a[..|a| - 1]), a[|a| - 1] as nat, 8, low);
    ByteShift(a[|a| - 1], low);
  }

  lemma Powers()
    ensures Power2(8) == 256 && Power2(0) == 1
  {
  }
}
