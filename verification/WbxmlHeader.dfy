/** WBXML's variable-length integers, the document header, and the search for where one starts. */
module WbxmlHeader {
  import opened Wrappers
  import opened Bytes

  // ---------------------------------------------------------------- mb_u_int32

  /** What reading an integer gives, and the octets after those it consumed. */
  datatype Integer = Value(n: nat, rest: seq<byte>) | Truncated(rest: seq<byte>) | TooLong(rest: seq<byte>)

  function Low7(b: byte): (n: nat)
    ensures n < 128
  {
    b as int % 128
  }

  /** Up to `left` further octets, seven bits each, into a 32-bit accumulator. */
  function ReadOn(rest: seq<byte>, acc: nat, left: nat): (r: Integer)
    ensures |r.rest| <= |rest| && (r.Value? ==> |r.rest| < |rest|)
    ensures r.Value? && acc < U32 ==> r.n < U32
    decreases left
  {
    if left == 0 then TooLong(rest)
    else if rest == [] then Truncated(rest)
    else
      var n := Wrap32(acc * 128 + Low7(rest[0]));
      if rest[0] < 0x80 then Value(n, rest[1..]) else ReadOn(rest[1..], n, left - 1)
  }

  function Read(rest: seq<byte>): Integer {
    ReadOn(rest, 0, 5)
  }

  /** An integer ends at its first octet without the top bit, if that is among the first five; else it is too
      long, or the data ends in it. */
  lemma {:induction false} ReadEnds(s: seq<byte>) returns (k: nat)
    ensures k <= 5 && k <= |s| && forall j :: 0 <= j < k ==> s[j] >= 0x80
    ensures match Read(s)
            case Value(_, rest) => k < 5 && k < |s| && s[k] < 0x80 && rest == s[k + 1..]
            case TooLong(rest) => k == 5 && rest == s[5..]
            case Truncated(rest) => k < 5 && k == |s| && rest == []
  {
    hide Wrap32, Low7;
    k := ReadOnEnds(s, 0, 5);
  }

  lemma {:induction false} ReadOnEnds(s: seq<byte>, acc: nat, left: nat) returns (k: nat)
    ensures k <= left && k <= |s| && forall j :: 0 <= j < k ==> s[j] >= 0x80
    ensures match ReadOn(s, acc, left)
            case Value(_, rest) => k < left && k < |s| && s[k] < 0x80 && rest == s[k + 1..]
            case TooLong(rest) => k == left && rest == s[left..]
            case Truncated(rest) => k < left && k == |s| && rest == []
    decreases left
  {
    hide Wrap32, Low7;
    if left == 0 || s == [] || s[0] < 0x80 {
      k := 0;
    } else {
      var j := ReadOnEnds(s[1..], Wrap32(acc * 128 + Low7(s[0])), left - 1);
      k := j + 1;
      assert forall i :: 0 < i < k ==> s[i] == s[1..][i - 1];
      if k == left { assert s[1..][left - 1..] == s[left..]; }
      assert j < |s[1..]| ==> s[1..][j + 1..] == s[k + 1..];
    }
  }

  /** Shifting a uint32 left by seven loses the bits that do not fit. */
  lemma {:induction false} ShiftWraps(acc: nat, low: nat)
    requires low < 128
    ensures Wrap32(acc * 128) + low == Wrap32(acc * 128 + low)
  {
    var q := acc / 0x200_0000;
    var r := acc % 0x200_0000;
    assert acc == q * 0x200_0000 + r;
    RemainderIs(acc * 128, q, r * 128);
    RemainderIs(acc * 128 + low, q, r * 128 + low);
  }

  lemma ReadStep(rest: seq<byte>, acc: nat, left: nat)
    ensures ReadOn(rest, acc, left) ==
      if left == 0 then TooLong(rest)
      else if rest == [] then Truncated(rest)
      else
        var n := Wrap32(acc * 128) + Low7(rest[0]);
        if rest[0] < 0x80 then Value(n, rest[1..]) else ReadOn(rest[1..], n, left - 1)
  {
    if rest != [] { ShiftWraps(acc, Low7(rest[0])); }
  }

  /** The same step addressed by an offset. */
  lemma StepAt(data: seq<byte>, pos: nat, acc: nat, left: nat)
    requires pos <= |data|
    ensures ReadOn(data[pos..], acc, left) ==
      if left == 0 then TooLong(data[pos..])
      else if pos == |data| then Truncated(data[pos..])
      else
        var n := Wrap32(acc * 128) + Low7(data[pos]);
        if data[pos] < 0x80 then Value(n, data[pos + 1..]) else ReadOn(data[pos + 1..], n, left - 1)
  {
    hide Wrap32, Low7, ReadOn;
    ReadStep(data[pos..], acc, left);
    if pos < |data| { assert data[pos..][1..] == data[pos + 1..]; }
  }

  function ValueOf(r: Integer): nat {
    if r.Value? then r.n else 0
  }

  method ParseMBUint32At(data: seq<byte>, start: int) returns (value: nat, next: int, ok: bool)
    ensures start < 0 || start >= |data| ==> (value, next, ok) == (0, start, false)
    ensures 0 <= start < |data| ==>
      var r := Read(data[start..]);
      value == ValueOf(r) && ok == r.Value? && start <= next <= |data| && r.rest == data[next..]
  {
    if start < 0 || start >= |data| {
      return 0, start, false;
    }
    value, next, ok := ReadOctets(data, start);
  }

  /** The loop: at most five octets. */
  method ReadOctets(data: seq<byte>, start: nat) returns (value: nat, next: nat, ok: bool)
    requires start < |data|
    ensures start <= next <= |data|
    ensures Read(data[start..]) == if ok then Value(value, data[next..]) else Failed(Read(data[start..]), data[next..])
    ensures !ok ==> value == 0
  {
    hide Wrap32, Low7, ReadOn;
    var result: nat, pos: nat := 0, start;
    for i := 0 to 5
      invariant start <= pos <= |data|
      invariant Read(data[start..]) == ReadOn(data[pos..], result, 5 - i)
    {
      StepAt(data, pos, result, 5 - i);
      if pos >= |data| {
        return 0, pos, false;
      }
      var b := data[pos];
      pos := pos + 1;
      result := Wrap32(result * 128) + Low7(b);
      if b < 0x80 {
        return result, pos, true;
      }
    }
    StepAt(data, pos, result, 0);
    return 0, pos, false;
  }

  /** A failed reading that left these octets. */
  function Failed(r: Integer, rest: seq<byte>): Integer {
    if r.TooLong? then TooLong(rest) else Truncated(rest)
  }

  /** The j octets, each with its top bit set, that carry m's low 7j bits. */
  function Continued(m: nat, j: nat): (s: seq<byte>)
    ensures |s| == j
  {
    if j == 0 then [] else Continued(m / 128, j - 1) + [128 + m % 128]
  }

  /** n in k octets; k need not be the least. */
  function Encoded(n: nat, k: nat): (s: seq<byte>)
    requires k > 0
    ensures |s| == k
  {
    Continued(n / 128, k - 1) + [n % 128]
  }

  function Pow128(k: nat): nat {
    if k == 0 then 1 else 128 * Pow128(k - 1)
  }

  lemma {:induction false} ReadsContinued(m: nat, j: nat, tail: seq<byte>, left: nat)
    requires m < Pow128(j) && j <= left
    ensures ReadOn(Continued(m, j) + tail, 0, left) == ReadOn(tail, Wrap32(m), left - j)
  {
    if j == 0 {
      assert Continued(m, j) + tail == tail;
    } else {
      hide Wrap32, Low7, ReadOn;
      var b: byte := 128 + m % 128;
      assert Low7(b) == m % 128 by { TopBit(m % 128); }
      ReadsContinued(m / 128, j - 1, [b] + tail, left);
      assert Continued(m, j) + tail == Continued(m / 128, j - 1) + ([b] + tail);
      assert ([b] + tail)[1..] == tail;
      ReadStep([b] + tail, Wrap32(m / 128), left - (j - 1));
      NextAcc(m);
    }
  }

  lemma TopBit(low: nat)
    requires low < 128
    ensures Low7(128 + low) == low && Low7(low) == low
  {
  }

  lemma {:induction false} NextAcc(m: nat)
    ensures Wrap32(Wrap32(m / 128) * 128) + m % 128 == Wrap32(m)
  {
    ShiftWraps(Wrap32(m / 128), m % 128);
    WrapInside(m / 128, m % 128);
  }

  lemma WrapInside(q: nat, low: nat)
    requires low < 128
    ensures Wrap32(Wrap32(q) * 128 + low) == Wrap32(q * 128 + low)
  {
    var k := q / U32;
    assert q == k * U32 + q % U32;
    var x := q % U32 * 128 + low;
    assert q * 128 + low == k * 128 * U32 + x;
    var d := x / U32;
    RemainderIs(x, d, x % U32);
    RemainderIs(q * 128 + low, k * 128 + d, x % U32);
  }

  /** Decoding inverts encoding: any encoding of up to five octets, minimal or not, is read whole and
      gives the number in 32 bits. */
  lemma ReadsEncoded(n: nat, k: nat, more: seq<byte>)
    requires 1 <= k <= 5 && n < Pow128(k)
    ensures Read(Encoded(n, k) + more) == Value(Wrap32(n), more)
  {
    hide Wrap32, Low7, ReadOn;
    TopBit(n % 128);
    var tail := [n % 128] + more;
    assert Encoded(n, k) + more == Continued(n / 128, k - 1) + tail;
    ReadsContinued(n / 128, k - 1, tail, 5);
    assert tail[1..] == more;
    ReadStep(tail, Wrap32(n / 128), 5 - (k - 1));
    NextAcc(n);
  }

  // ---------------------------------------------------------------- the document header

  const PUBLIC_ID: nat := 0x0B

  datatype Header = Header(version: byte, table: seq<byte>, body: seq<byte>)

  datatype HeaderError = NoVersion | NoPublicId | WrongPublicId(id: nat) | NoCharset | NoTableLength | NoTable

  datatype HeaderResult = Parsed(header: Header) | Refused(error: HeaderError)

  /** The header stage of decodeWBXML. The charset is read and dropped. */
  function HeaderStage(data: seq<byte>): HeaderResult {
    if data == [] then Refused(NoVersion)
    else
      var id := Read(data[1..]);
      if !id.Value? then Refused(NoPublicId)
      else if id.n != PUBLIC_ID then Refused(WrongPublicId(id.n))
      else
        var charset := Read(id.rest);
        if !charset.Value? then Refused(NoCharset)
        else
          var length := Read(charset.rest);
          if !length.Value? then Refused(NoTableLength)
          else if length.n > |length.rest| then Refused(NoTable)
          else Parsed(Header(data[0], length.rest[..length.n], length.rest[length.n..]))
  }

  /** isWBXMLHeader says yes exactly to what the header stage takes with a version of 1 to 3: no
      suffix it accepts is refused later, and it refuses none with such a version that would be taken. */
  predicate IsHeader(data: seq<byte>) {
    HeaderStage(data).Parsed? && 0x01 <= data[0] <= 0x03
  }

  method IsWBXMLHeader(data: seq<byte>) returns (yes: bool)
    ensures yes == IsHeader(data)
    ensures yes <==> HeaderStage(data).Parsed? && data[0] in {1, 2, 3}
  {
    hide ReadOn;
    HeadersAreLong(data);
    if |data| < 4 {
      return false;
    }
    var version := data[0];
    if version < 0x01 || version > 0x03 {
      return false;
    }
    var publicId, next, ok := ParseMBUint32At(data, 1);
    if !ok || publicId != PUBLIC_ID {
      return false;
    }
    ReadNothing();
    assert data[|data|..] == [];
    var _, next2, ok2 := ParseMBUint32At(data, next);
    if !ok2 {
      return false;
    }
    var strTableLen, next3, ok3 := ParseMBUint32At(data, next2);
    if !ok3 {
      return false;
    }
    return next3 + strTableLen <= |data|;
  }

  lemma ReadNothing()
    ensures Read([]) == Truncated([])
  {
  }

  lemma HeadersAreLong(data: seq<byte>)
    ensures IsHeader(data) ==> |data| >= 4
  {
  }

  /** The earliest offset, from `from` on, where a header is accepted. */
  ghost predicate StartsAt(data: seq<byte>, offset: nat) {
    && offset < |data| && IsHeader(data[offset..])
    && forall o :: 0 <= o < offset ==> !IsHeader(data[o..])
  }

  /** findWBXMLStart: the first suffix that is a header, or nothing if there is none; so what is
      handed to the decoder always passes its header stage. */
  method FindWBXMLStart(data: seq<byte>) returns (doc: Option<seq<byte>>)
    ensures doc == None ==> forall o :: 0 <= o < |data| ==> !IsHeader(data[o..])
    ensures doc.Some? ==> (exists offset: nat :: StartsAt(data, offset) && doc.value == data[offset..])
                          && HeaderStage(doc.value).Parsed?
  {
    hide HeaderStage;
    assert data[0..] == data;
    var direct := IsWBXMLHeader(data);
    if direct {
      NotEmpty(data);
      assert StartsAt(data, 0);
      return Some(data);
    }
    var offset := 1;
    while offset < |data|
      invariant 1 <= offset && forall o :: 0 <= o < offset && o < |data| ==> !IsHeader(data[o..])
    {
      var here := IsWBXMLHeader(data[offset..]);
      if here {
        assert StartsAt(data, offset);
        return Some(data[offset..]);
      }
      offset := offset + 1;
    }
    return None;
  }

  lemma NotEmpty(data: seq<byte>)
    requires IsHeader(data)
    ensures data != []
  {
  }

  lemma {:induction false} HeaderOfParts(d: seq<byte>, rest1: seq<byte>, charset: nat, rest2: seq<byte>, length: nat, rest3: seq<byte>)
    requires d != [] && length <= |rest3|
    requires Read(d[1..]) == Value(PUBLIC_ID, rest1) && Read(rest1) == Value(charset, rest2) && Read(rest2) == Value(length, rest3)
    ensures HeaderStage(d) == Parsed(Header(d[0], rest3[..length], rest3[length..]))
  {
    hide Read;
  }

  /** A document put together from its parts has exactly those parts as its header, whatever lengths
      its integers are written in. */
  lemma HeaderReadsBack(version: byte, charset: nat, table: seq<byte>, body: seq<byte>, k1: nat, k2: nat, k3: nat)
    requires 1 <= k1 <= 5 && 1 <= k2 <= 5 && 1 <= k3 <= 5
    requires charset < Pow128(k2) && |table| < Pow128(k3) && |table| < U32
    ensures HeaderStage([version] + (Encoded(PUBLIC_ID, k1) + (Encoded(charset, k2) + (Encoded(|table|, k3) + (table + body)))))
            == Parsed(Header(version, table, body))
  {
    hide Read, Encoded, Pow128, HeaderStage;
    var rest3 := table + body;
    var rest2 := Encoded(|table|, k3) + rest3;
    var rest1 := Encoded(charset, k2) + rest2;
    var d := [version] + (Encoded(PUBLIC_ID, k1) + rest1);
    assert d[1..] == Encoded(PUBLIC_ID, k1) + rest1;
    Positive(k1);
    ReadsEncoded(PUBLIC_ID, k1, rest1);
    ReadsEncoded(charset, k2, rest2);
    ReadsEncoded(|table|, k3, rest3);
    HeaderOfParts(d, rest1, Wrap32(charset), rest2, |table|, rest3);
    assert rest3[..|table|] == table && rest3[|table|..] == body;
  }

  /** Another document type is refused, and so is a string table that is not all there, or an integer that is
      cut off. */
  lemma {:induction false} HeaderRefused(
      version: byte, id: nat, charset: nat, length: nat, k1: nat, k2: nat, k3: nat, rest: seq<byte>, cut: seq<byte>)
    requires 1 <= k1 <= 5 && 1 <= k2 <= 5 && 1 <= k3 <= 5
    requires id < Pow128(k1) && id < U32 && charset < Pow128(k2) && length < Pow128(k3) && length < U32
    requires |cut| < 5 && forall j :: 0 <= j < |cut| ==> cut[j] >= 0x80
    ensures HeaderStage([]) == Refused(NoVersion) && HeaderStage([version] + cut) == Refused(NoPublicId)
    ensures id != 0x0B ==> HeaderStage([version] + (Encoded(id, k1) + rest)) == Refused(WrongPublicId(id))
    ensures HeaderStage([version] + (Encoded(0x0B, k1) + cut)) == Refused(NoCharset)
    ensures HeaderStage([version] + (Encoded(0x0B, k1) + (Encoded(charset, k2) + cut))) == Refused(NoTableLength)
    ensures |rest| < length ==>
              HeaderStage([version] + (Encoded(0x0B, k1) + (Encoded(charset, k2) + (Encoded(length, k3) + rest)))) == Refused(NoTable)
  {
    hide Read, Encoded, Pow128;
    var rest2 := Encoded(length, k3) + rest;
    var rest1 := Encoded(charset, k2) + rest2;
    Positive(k1);
    var k := ReadEnds(cut);
    ReadsEncoded(id, k1, rest);
    ReadsEncoded(0x0B, k1, cut);
    ReadsEncoded(0x0B, k1, Encoded(charset, k2) + cut);
    ReadsEncoded(0x0B, k1, rest1);
    ReadsEncoded(charset, k2, cut);
    ReadsEncoded(charset, k2, rest2);
    ReadsEncoded(length, k3, rest);
    Behind(version, cut);
    Behind(version, Encoded(id, k1) + rest);
    Behind(version, Encoded(0x0B, k1) + cut);
    Behind(version, Encoded(0x0B, k1) + (Encoded(charset, k2) + cut));
    Behind(version, Encoded(0x0B, k1) + rest1);
  }

  lemma Behind(version: byte, rest: seq<byte>)
    ensures var d := [version] + rest; d != [] && d[0] == version && d[1..] == rest
  {
  }

  lemma {:induction false} Positive(k: nat)
    requires k >= 1
    ensures Pow128(k) >= 128
  {
    if k > 1 { Positive(k - 1); }
  }
}
