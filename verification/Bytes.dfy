/** Byte strings and the little-endian integers that the codec and the packet header are made of. */
module Bytes {

  type Byte = b: int | 0 <= b < 256

  type Octets = seq<Byte>

  /** One more than the largest std::size_t. */
  const SIZE_LIMIT: nat := 0x1_0000_0000_0000_0000

  function Pow256(width: nat): (p: nat)
    ensures p >= 1
  {
    if width == 0 then 1 else 256 * Pow256(width - 1)
  }

  /** The object representation of an unsigned integer of `width` bytes on a little-endian host. */
  function ToLE(n: nat, width: nat): (s: Octets)
    requires n < Pow256(width)
    ensures |s| == width
  {
    if width == 0 then [] else [n % 256] + ToLE(n / 256, width - 1)
  }

  function FromLE(s: Octets): (n: nat)
    ensures n < Pow256(|s|)
  {
    if s == [] then 0 else s[0] + 256 * FromLE(s[1..])
  }

  /** The lowest base-256 digit and the rest. */
  lemma Digits(low: Byte, high: nat)
    ensures (low + 256 * high) % 256 == low && (low + 256 * high) / 256 == high
  {}

  lemma {:induction false} FromToLE(n: nat, width: nat)
    requires n < Pow256(width)
    ensures FromLE(ToLE(n, width)) == n
  {
    if width == 0 {
    } else {
      FromToLE(n / 256, width - 1);
      assert ToLE(n, width)[1..] == ToLE(n / 256, width - 1);
    }
  }

  lemma {:induction false} ToFromLE(s: Octets)
    ensures ToLE(FromLE(s), |s|) == s
  {
    if s == [] {
    } else {
      hide ToLE;
      ToFromLE(s[1..]);
      LowFirst(s[0], FromLE(s[1..]), |s| - 1);
      assert s == [s[0]] + s[1..];
    }
  }

  lemma LowFirst(low: Byte, high: nat, width: nat)
    requires high < Pow256(width)
    ensures low + 256 * high < Pow256(width + 1)
    ensures ToLE(low + 256 * high, width + 1) == [low] + ToLE(high, width)
  {
    Digits(low, high);
  }

  lemma Distribute(rest: nat, p: nat, b: Byte)
    ensures 256 * (rest + p * b) == 256 * rest + 256 * p * b
  {}

  /** The last byte is the highest digit. */
  lemma {:induction false} FromLEAppend(s: Octets, b: Byte)
    ensures FromLE(s + [b]) == FromLE(s) + Pow256(|s|) * b
  {
    if s == [] {
      assert [b][1..] == [];
    } else {
      var p, rest := Pow256(|s| - 1), FromLE(s[1..]);
      FromLEAppend(s[1..], b);
      assert (s + [b])[1..] == s[1..] + [b];
      assert FromLE(s + [b]) == s[0] + 256 * (rest + p * b);
      Distribute(rest, p, b);
    }
  }

  /** Four bytes are their digits. */
  lemma FourBytes(s: Octets)
    requires |s| == 4
    ensures FromLE(s) == s[0] as int + 0x100 * (s[1] as int) + 0x1_0000 * (s[2] as int) + 0x100_0000 * (s[3] as int)
  {
    assert FromLE(s[1..]) == s[1] + 256 * FromLE(s[2..]) by {
      assert s[1..][1..] == s[2..];
    }
    assert FromLE(s[2..]) == s[2] + 256 * FromLE(s[3..]) by {
      assert s[2..][1..] == s[3..];
    }
    assert FromLE(s[3..]) == s[3] + 256 * FromLE(s[4..]) by {
      assert s[3..][1..] == s[4..];
    }
  }

  lemma TwoBytes(s: Octets)
    requires |s| == 2
    ensures FromLE(s) == s[0] as int + 0x100 * (s[1] as int)
  {
    assert FromLE(s[1..]) == s[1] + 256 * FromLE(s[2..]) by {
      assert s[1..][1..] == s[2..];
    }
  }

  lemma Widths()
    ensures Pow256(1) == 0x100
    ensures Pow256(2) == 0x1_0000
    ensures Pow256(4) == 0x1_0000_0000
    ensures Pow256(8) == SIZE_LIMIT
  {
    assert Pow256(2) == 256 * Pow256(1);
    assert Pow256(3) == 256 * Pow256(2);
    assert Pow256(4) == 256 * Pow256(3);
    assert Pow256(5) == 256 * Pow256(4);
    assert Pow256(6) == 256 * Pow256(5);
    assert Pow256(7) == 256 * Pow256(6);
  }

  /** A std::size_t in memory. */
  function U64(n: nat): (s: Octets)
    requires n < SIZE_LIMIT
    ensures |s| == 8
  {
    Widths();
    ToLE(n, 8)
  }

  lemma U64RoundTrip(n: nat)
    requires n < SIZE_LIMIT
    ensures FromLE(U64(n)) == n
  {
    Widths();
    FromToLE(n, 8);
  }

  lemma U64Canonical(s: Octets)
    requires |s| == 8
    ensures FromLE(s) < SIZE_LIMIT && U64(FromLE(s)) == s
  {
    Widths();
    ToFromLE(s);
  }
}
