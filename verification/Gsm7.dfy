/** The GSM 7-bit default alphabet's packing: septets out of octets. */
module Gsm7 {
  import opened Bytes
  import opened Binary

  datatype Unpacked = Septets(septets: seq<byte>) | PayloadEmpty

  /** The number whose little-endian base-256 digits are the octets. */
  function Num(data: seq<byte>): (n: nat)
    ensures n < Pow2(8 * |data|)
  {
    if data == [] then 0
    else
      var i := |data| - 1;
      Pow2Of7();
      DigitOnTop(Num(data[..i]), data[i], 8 * i, 8);
      Num(data[..i]) + data[i] * Pow2(8 * i)
  }

  /** Bit p of the octet stream, least significant bit of the first octet first. */
  function StreamBit(data: seq<byte>, p: nat): (b: nat)
    requires p < 8 * |data|
  {
    Bit(data[p / 8], p % 8)
  }

  lemma {:induction false} NumBits(data: seq<byte>, p: nat)
    requires p < 8 * |data|
    ensures Bit(Num(data), p) == StreamBit(data, p)
  {
    hide Bit;
    var i := |data| - 1;
    BitOfSum(Num(data[..i]), data[i], 8 * i, p);
    if p < 8 * i {
      NumBits(data[..i], p);
    }
  }

  /** Digit k in base 128 of the octets' number. */
  function Septet(data: seq<byte>, k: nat): (s: byte)
    ensures s < 128
  {
    Shr(Num(data), 7 * k) % 128
  }

  lemma LowBits(n: nat, m: nat, b: nat)
    requires b < m
    ensures Bit(n % Pow2(m), b) == Bit(n, b)
  {
    hide Bit, Pow2;
    var lo, hi := n % Pow2(m), n / Pow2(m);
    DivMod(n, Pow2(m));
    BitOfSum(lo, hi, m, b);
  }

  lemma BitOfShift(n: nat, a: nat, b: nat)
    ensures Bit(Shr(n, a), b) == Bit(n, a + b)
  {
    ShiftShift(n, a, b);
  }

  lemma {:induction false} Pow2Of7()
    ensures Pow2(7) == 128 && Pow2(8) == 256
  {
    assert Pow2(4) == 16;
  }

  /** Bit b of septet k is bit 7k + b of the stream: the layout of the standard. */
  lemma SeptetBits(data: seq<byte>, k: nat, b: nat)
    requires b < 7 && 7 * k + b < 8 * |data|
    ensures Bit(Septet(data, k), b) == StreamBit(data, 7 * k + b)
  {
    hide Bit, Num, Pow2, StreamBit;
    Pow2Of7();
    LowBits(Shr(Num(data), 7 * k), 7, b);
    BitOfShift(Num(data), 7 * k, b);
    NumBits(data, 7 * k + b);
  }

  // ---------------------------------------------------------------- the loop

  /** Go's division truncates toward zero. */
  function TruncDiv(a: int, d: int): (q: int)
    requires d > 0
  {
    if a >= 0 then a / d else -(-a / d)
  }

  function Spare(spareBits: int): (s: int)
    ensures 0 <= s <= 7
  {
    if spareBits < 0 || spareBits > 7 then 0 else spareBits
  }

  /** How many septets are declared: every whole one before the spare bits. */
  function Count(octets: nat, spareBits: int): int {
    TruncDiv(octets * 8 - Spare(spareBits), 7)
  }

  lemma NumAppend(data: seq<byte>, i: nat)
    requires i < |data|
    ensures Num(data[..i + 1]) == Num(data[..i]) + data[i] * Pow2(8 * i)
  {
    assert data[..i + 1][..i] == data[..i];
  }

  lemma ShiftedAway(j: nat, i: nat, c: nat)
    requires 7 * j <= 8 * i
    ensures c * Pow2(8 * i) == c * Pow2(8 * i - 7 * j) * Pow2(7 * j)
  {
    Pow2Add(8 * i - 7 * j, 7 * j);
  }

  /** What the accumulator holds: the octets read, less the septets taken. */
  ghost predicate Holds(buf: nat, bits: nat, data: seq<byte>, i: nat, j: nat) {
    && i <= |data| && bits == 8 * i - 7 * j && buf == Shr(Num(data[..i]), 7 * j)
    && buf < Pow2(bits)
  }

  lemma QuotientBound(n: nat, a: nat, b: nat)
    requires n < Pow2(a + b)
    ensures Shr(n, a) < Pow2(b)
  {
    Pow2Add(b, a);
    var q := Shr(n, a);
    DivMod(n, Pow2(a));
    if q >= Pow2(b) {
      MulMono(Pow2(b), q, Pow2(a));
    }
  }

  lemma TakeOctet(buf: nat, bits: nat, data: seq<byte>, i: nat, j: nat)
    requires Holds(buf, bits, data, i, j) && i < |data|
    ensures Or(buf, data[i] * Pow2(bits)) == buf + data[i] * Pow2(bits)
    ensures Holds(buf + data[i] * Pow2(bits), bits + 8, data, i + 1, j)
  {
    hide Or, Num, Pow2;
    OrIsSum(buf, data[i], bits);
    NumAppend(data, i);
    ShiftedAway(j, i, data[i]);
    DivAddMultiple(Num(data[..i]), data[i] * Pow2(bits), Pow2(7 * j));
    QuotientBound(Num(data[..i + 1]), 7 * j, bits + 8);
  }

  /** Octets still to come do not change a septet already complete. */
  lemma {:induction false} SeptetSettled(data: seq<byte>, i: nat, k: nat)
    requires i <= |data| && 7 * k + 7 <= 8 * i
    ensures Septet(data[..i], k) == Septet(data, k)
    decreases |data| - i
  {
    hide Num, Pow2;
    if i == |data| {
      assert data[..i] == data;
    } else {
      SeptetSettled(data, i + 1, k);
      NumAppend(data, i);
      ShiftedAway(k + 1, i, data[i]);
      SeptetOfSum(Num(data[..i]), data[i] * Pow2(8 * i - 7 * (k + 1)), k);
    }
  }

  lemma SeptetOfSum(n: nat, c: nat, k: nat)
    ensures Shr(n + c * Pow2(7 * (k + 1)), 7 * k) % 128 == Shr(n, 7 * k) % 128
  {
    Pow2Of7();
    Pow2Add(7, 7 * k);
    Regroup128(c, Pow2(7 * k));
    DivAddMultiple(n, c * 128, Pow2(7 * k));
    Mod128(Shr(n, 7 * k), c);
  }

  lemma Regroup128(c: nat, p: nat)
    ensures c * (128 * p) == c * 128 * p
  {
  }

  lemma Mod128(q: nat, c: nat)
    ensures (q + c * 128) % 128 == q % 128
  {
  }

  lemma GiveSeptet(buf: nat, bits: nat, data: seq<byte>, i: nat, j: nat)
    requires Holds(buf, bits, data, i, j) && bits >= 7
    ensures And(buf, 0x7F) == Septet(data, j)
    ensures Holds(buf / 128, bits - 7, data, i, j + 1)
  {
    Pow2Of7();
    AndMask(buf, 7);
    SeptetSettled(data, i, j);
    ShiftShift(Num(data[..i]), 7 * j, 7);
    QuotientBound(buf, 7, bits - 7);
  }

  /** decodePackedGSM7 up to the character table. */
  method Unpack(data: seq<byte>, spareBits: int) returns (r: Unpacked)
    ensures Count(|data|, spareBits) <= 0 <==> r == PayloadEmpty
    ensures r.Septets? ==>
      && |r.septets| == Count(|data|, spareBits)
      && forall k :: 0 <= k < |r.septets| ==> r.septets[k] == Septet(data, k)
  {
    hide Holds, And, Or, Septet;
    var septets := Count(|data|, spareBits);
    if septets <= 0 {
      return PayloadEmpty;
    }
    var unpacked: seq<byte>, buf: nat, bits: nat := [], 0, 0;
    HoldsAtFirst(data);
    for i := 0 to |data|
      invariant |unpacked| <= septets && forall k :: 0 <= k < |unpacked| ==> unpacked[k] == Septet(data, k)
      invariant Holds(buf, bits, data, i, |unpacked|) && bits == 8 * i - 7 * |unpacked|
      invariant |unpacked| < septets ==> bits < 7
      invariant bits <= 14 && buf < 0x4000
    {
      TakeOctet(buf, bits, data, i, |unpacked|);
      buf := Or(buf, data[i] * Pow2(bits));
      bits := bits + 8;
      while bits >= 7 && |unpacked| < septets
        invariant |unpacked| <= septets && forall k :: 0 <= k < |unpacked| ==> unpacked[k] == Septet(data, k)
        invariant Holds(buf, bits, data, i + 1, |unpacked|) && bits == 8 * (i + 1) - 7 * |unpacked|
      {
        GiveSeptet(buf, bits, data, i + 1, |unpacked|);
        unpacked := unpacked + [And(buf, 0x7F)];
        buf := buf / 128;
        bits := bits - 7;
      }
      Bounded(buf, bits, data, i + 1, |unpacked|);
    }
    return Septets(unpacked);
  }

  lemma HoldsAtFirst(data: seq<byte>)
    ensures Holds(0, 0, data, 0, 0)
  {
  }

  /** No wrap-around: at most 14 bits are ever held over. */
  lemma {:induction false} Bounded(buf: nat, bits: nat, data: seq<byte>, i: nat, j: nat)
    requires Holds(buf, bits, data, i, j) && bits <= 14
    ensures buf < 0x4000
  {
    Pow2Of7();
    Pow2Add(7, 7);
    Pow2Add(bits, 14 - bits);
    MulMono(1, Pow2(14 - bits), Pow2(bits));
  }

  // ---------------------------------------------------------------- packing

  /** The standard's layout: bit 7k + b of the octets is bit b of septet k, in as few octets as
      will hold them. Nothing is said of the bits that are left. */
  ghost predicate Packs(data: seq<byte>, septets: seq<byte>) {
    && |data| == (7 * |septets| + 7) / 8
    && (forall k :: 0 <= k < |septets| ==> septets[k] < 128)
    && forall k: nat, b: nat :: k < |septets| && b < 7 ==> StreamBit(data, 7 * k + b) == Bit(septets[k], b)
  }

  /** Unpacking inverts packing, whatever fills the spare bits. */
  lemma UnpackInvertsPack(data: seq<byte>, septets: seq<byte>)
    requires Packs(data, septets)
    ensures var spare := 8 * |data| - 7 * |septets|; 0 <= spare <= 7 && Count(|data|, spare) == |septets|
    ensures forall k :: 0 <= k < |septets| ==> Septet(data, k) == septets[k]
  {
    forall k: nat | k < |septets| ensures Septet(data, k) == septets[k] {
      Pow2Of7();
      forall b: nat | b < 7 ensures Bit(Septet(data, k), b) == Bit(septets[k], b) {
        SeptetBits(data, k, b);
      }
      SameBits(Septet(data, k), septets[k], 7);
    }
  }

  function Num7(septets: seq<byte>): (n: nat)
    requires forall k :: 0 <= k < |septets| ==> septets[k] < 128
    ensures n < Pow2(7 * |septets|)
  {
    if septets == [] then 0
    else
      var i := |septets| - 1;
      Pow2Of7();
      DigitOnTop(Num7(septets[..i]), septets[i], 7 * i, 7);
      Num7(septets[..i]) + septets[i] * Pow2(7 * i)
  }

  lemma {:induction false} Num7Bits(septets: seq<byte>, k: nat, b: nat)
    requires forall k :: 0 <= k < |septets| ==> septets[k] < 128
    requires k < |septets| && b < 7
    ensures Bit(Num7(septets), 7 * k + b) == Bit(septets[k], b)
  {
    hide Bit;
    var i := |septets| - 1;
    BitOfSum(Num7(septets[..i]), septets[i], 7 * i, 7 * k + b);
    if k < i {
      Num7Bits(septets[..i], k, b);
    }
  }

  function Octets(n: nat, count: nat): (data: seq<byte>)
    ensures |data| == count
  {
    if count == 0 then [] else Octets(n, count - 1) + [Shr(n, 8 * (count - 1)) % 256]
  }

  lemma {:induction false} OctetAt(n: nat, count: nat, i: nat)
    requires i < count
    ensures Octets(n, count)[i] == Shr(n, 8 * i) % 256
  {
    if i < count - 1 {
      OctetAt(n, count - 1, i);
    }
  }

  lemma OctetBits(n: nat, count: nat, p: nat)
    requires p < 8 * count
    ensures StreamBit(Octets(n, count), p) == Bit(n, p)
  {
    hide Bit, Pow2, Octets;
    var a := p / 8 * 8;
    OctetAt(n, count, p / 8);
    Pow2Of7();
    LowBits(Shr(n, a), 8, p % 8);
    BitOfShift(n, a, p % 8);
  }

  function Pack(septets: seq<byte>): seq<byte>
    requires forall k :: 0 <= k < |septets| ==> septets[k] < 128
  {
    Octets(Num7(septets), (7 * |septets| + 7) / 8)
  }

  /** Every string of septets has a packing, so the inversion speaks of all of them. */
  lemma PackPacks(septets: seq<byte>)
    requires forall k :: 0 <= k < |septets| ==> septets[k] < 128
    ensures Packs(Pack(septets), septets)
  {
    var data := Pack(septets);
    forall k: nat, b: nat | k < |septets| && b < 7
      ensures StreamBit(data, 7 * k + b) == Bit(septets[k], b)
    {
      OctetBits(Num7(septets), |data|, 7 * k + b);
      Num7Bits(septets, k, b);
    }
  }
}
