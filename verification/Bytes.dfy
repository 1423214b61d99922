/** Octets and little-endian words. */
module Bytes {

  type byte = x: int | 0 <= x < 256

  const U32: nat := 0x1_0000_0000

  /** The octets a card pads its data with. */
  predicate IsPadding(b: byte) { b == 0x00 || b == 0xFF }

  predicate AllPadding(s: seq<byte>) { forall i :: 0 <= i < |s| ==> s[i] == 0x00 || s[i] == 0xFF }

  /** A Go conversion to uint32. */
  function Wrap32(n: nat): (r: nat)
    ensures r < U32
  {
    n % U32
  }

  function LE32(n: nat): (s: seq<byte>)
    ensures |s| == 4
  {
    [n % 256, n / 256 % 256, n / 256 / 256 % 256, n / 256 / 256 / 256 % 256]
  }

  function Get16(s: seq<byte>, o: nat): (n: nat)
    requires o + 2 <= |s|
    ensures n < 0x1_0000
  {
    s[o] as int + 0x100 * s[o + 1] as int
  }

  function Get32(s: seq<byte>, o: nat): (n: nat)
    requires o + 4 <= |s|
    ensures n < U32
  {
    s[o] as int + 0x100 * s[o + 1] as int + 0x1_0000 * s[o + 2] as int + 0x100_0000 * s[o + 3] as int
  }

  /** The least octet comes first. */
  lemma {:induction false} LittleEndFirst()
    ensures LE32(0x0102_0304) == [0x04, 0x03, 0x02, 0x01]
    ensures Get32([0x04, 0x03, 0x02, 0x01], 0) == 0x0102_0304 && Get16([0x02, 0x01], 0) == 0x0102
  {
  }

  /** Reading a little-endian word gives back what was written, wrapped to 32 bits. */
  lemma {:induction false} Get32OfLE32(s: seq<byte>, o: nat, n: nat)
    requires o + 4 <= |s| && s[o..o + 4] == LE32(n)
    ensures Get32(s, o) == Wrap32(n)
  {
    assert s[o] == s[o..o + 4][0] && s[o + 1] == s[o..o + 4][1] && s[o + 2] == s[o..o + 4][2] && s[o + 3] == s[o..o + 4][3];
    Digits(n);
  }

  lemma {:induction false} Digits(n: nat)
    ensures n % 256 + 0x100 * (n / 256 % 256) + 0x1_0000 * (n / 256 / 256 % 256) + 0x100_0000 * (n / 256 / 256 / 256 % 256) == n % U32
  {
    var a := n / 256;
    var b := a / 256;
    var c := b / 256;
    var d := c / 256;
    var low := n % 256 + 0x100 * (a % 256) + 0x1_0000 * (b % 256) + 0x100_0000 * (c % 256);
    assert n == U32 * d + low;
    RemainderIs(n, d, low);
  }

  lemma RemainderIs(n: nat, q: nat, r: nat)
    requires n == U32 * q + r && r < U32
    ensures n % U32 == r
  {
  }

  /** PutUint32. */
  method Put32(b: array<byte>, o: nat, n: nat)
    requires o + 4 <= b.Length
    modifies b
    ensures b[..] == old(b[..o]) + LE32(n) + old(b[o + 4..])
  {
    b[o], b[o + 1], b[o + 2], b[o + 3] := n % 256, n / 256 % 256, n / 256 / 256 % 256, n / 256 / 256 / 256 % 256;
  }

  /** copy(b[o:], s). */
  method CopyInto(b: array<byte>, o: nat, s: seq<byte>)
    requires o + |s| <= b.Length
    modifies b
    ensures b[..] == old(b[..o]) + s + old(b[o + |s|..])
  {
    forall i | 0 <= i < |s| {
      b[o + i] := s[i];
    }
  }

  function Concat<T>(ss: seq<seq<T>>): seq<T> {
    if ss == [] then [] else ss[0] + Concat(ss[1..])
  }

  lemma {:induction false} ConcatAppend<T>(a: seq<seq<T>>, b: seq<seq<T>>)
    ensures Concat(a + b) == Concat(a) + Concat(b)
  {
    if a == [] {
      assert a + b == b;
    } else {
      ConcatAppend(a[1..], b);
      assert (a + b)[1..] == a[1..] + b && (a + b)[0] == a[0];
      assert Concat(a + b) == a[0] + (Concat(a[1..]) + Concat(b));
    }
  }

  lemma ConcatLast<T>(ss: seq<seq<T>>, k: nat)
    requires k < |ss|
    ensures Concat(ss[..k + 1]) == Concat(ss[..k]) + ss[k]
  {
    assert ss[..k + 1] == ss[..k] + [ss[k]];
    ConcatAppend(ss[..k], [ss[k]]);
    assert Concat([ss[k]]) == ss[k] + Concat([]);
  }
}
