/** QMI frames as they are carried in the MBIM tunnel, and the TLVs in them. */
module Qmi {
  import opened Wrappers
  import opened Bytes

  datatype Tlv = Tlv(typ: byte, value: seq<byte>)

  // ---------------------------------------------------------------- TLV runs

  /** The TLV that starts here, if it is all there. */
  function Head(rest: seq<byte>): (t: Option<Tlv>)
    ensures t.Some? ==> 3 + |t.value.value| <= |rest|
    ensures t.Some? <==> |rest| >= 3 && 3 + Get16(rest, 1) <= |rest|
  {
    if |rest| < 3 || 3 + Get16(rest, 1) > |rest| then None
    else Some(Tlv(rest[0], rest[3..3 + Get16(rest, 1)]))
  }

  function Tlvs(rest: seq<byte>): (ts: seq<Tlv>)
  {
    match Head(rest)
    case None => []
    case Some(t) => [t] + Tlvs(rest[3 + |t.value|..])
  }

  /** The same TLV addressed by its offset. */
  lemma HeadAt(s: seq<byte>, idx: nat)
    requires idx + 3 <= |s|
    ensures var l := Get16(s, idx + 1);
            if idx + 3 + l > |s| then Head(s[idx..]) == None
            else Head(s[idx..]) == Some(Tlv(s[idx], s[idx + 3..idx + 3 + l])) && s[idx..][3 + l..] == s[idx + 3 + l..]
  {
    var rest := s[idx..];
    var l := Get16(s, idx + 1);
    assert Get16(rest, 1) == l;
    if idx + 3 + l <= |s| {
      assert rest[3..3 + l] == s[idx + 3..idx + 3 + l];
    }
  }

  function LE16(n: nat): (s: seq<byte>)
    ensures |s| == 2
  {
    [n % 256, n / 256 % 256]
  }

  predicate Fits(t: Tlv) { |t.value| < 0x1_0000 }

  function EncodeTlv(t: Tlv): (s: seq<byte>)
    ensures |s| == 3 + |t.value|
  {
    [t.typ] + LE16(|t.value|) + t.value
  }

  function EncodeTlvs(ts: seq<Tlv>): seq<byte> {
    if ts == [] then [] else EncodeTlv(ts[0]) + EncodeTlvs(ts[1..])
  }

  /** A TLV's octets: type, length little end first, value. */
  lemma {:induction false} TlvOctets(typ: byte, value: seq<byte>)
    requires |value| < 0x1_0000
    ensures EncodeTlv(Tlv(typ, value)) == [typ, |value| % 0x100, |value| / 0x100] + value && Fits(Tlv(typ, value))
  {
  }

  lemma {:induction false} HeadOf(t: Tlv, more: seq<byte>)
    requires Fits(t)
    ensures Head(EncodeTlv(t) + more) == Some(t) && (EncodeTlv(t) + more)[3 + |t.value|..] == more
  {
    var s := EncodeTlv(t) + more;
    assert s[3..3 + |t.value|] == t.value;
    assert Get16(s, 1) == |t.value|;
  }

  /** A run of TLVs is read back as it was put, up to a remainder that is not a whole TLV. */
  lemma {:induction false} TlvsReadBack(ts: seq<Tlv>, tail: seq<byte>)
    requires (forall i :: 0 <= i < |ts| ==> Fits(ts[i])) && Head(tail) == None
    ensures Tlvs(EncodeTlvs(ts) + tail) == ts
  {
    if ts == [] {
      assert EncodeTlvs(ts) + tail == tail;
    } else {
      hide Head, EncodeTlv;
      var more := EncodeTlvs(ts[1..]) + tail;
      assert EncodeTlvs(ts) + tail == EncodeTlv(ts[0]) + more;
      HeadOf(ts[0], more);
      TlvsReadBack(ts[1..], tail);
    }
  }

  // ---------------------------------------------------------------- frames

  function HeaderLength(service: byte): nat {
    if service == 0 then 12 else 13
  }

  /** A request frame; 16-bit fields wrap as the conversions do. */
  function Frame(service: byte, clientId: byte, txId: nat, msgId: nat, tlvs: seq<byte>): (f: seq<byte>)
    ensures |f| == HeaderLength(service) + |tlvs|
  {
    [0x01] + LE16(HeaderLength(service) - 1 + |tlvs|) + [0x00, service, clientId, 0x00] +
    (if service == 0 then [txId % 256] else LE16(txId)) + LE16(msgId) + LE16(|tlvs|) + tlvs
  }

  method Put16(b: array<byte>, o: nat, n: nat)
    requires o + 2 <= b.Length
    modifies b
    ensures b[..] == old(b[..o]) + LE16(n) + old(b[o + 2..])
  {
    b[o], b[o + 1] := n % 256, n / 256 % 256;
  }

  /** Put16 at the end of what is filled in so far. */
  method Append16(b: array<byte>, o: nat, n: nat)
    requires o + 2 <= b.Length
    modifies b
    ensures b[..o + 2] == old(b[..o]) + LE16(n)
  {
    Put16(b, o, n);
  }

  /** What comes before the message id and the TLVs. */
  function Prefix(service: byte, clientId: byte, txId: nat, length: nat): (p: seq<byte>)
    ensures |p| == HeaderLength(service) - 4
  {
    [0x01] + LE16(length) + [0x00, service, clientId, 0x00] + (if service == 0 then [txId % 256] else LE16(txId))
  }

  method FillPrefix(buf: array<byte>, service: byte, clientId: byte, txId: nat, length: nat) returns (offset: nat)
    requires buf.Length >= HeaderLength(service)
    modifies buf
    ensures offset == HeaderLength(service) - 4 && buf[..offset] == Prefix(service, clientId, txId, length)
  {
    hide LE16;
    buf[0] := 0x01;
    Append16(buf, 1, length);
    buf[3], buf[4], buf[5], buf[6] := 0x00, service, clientId, 0x00;
    assert buf[..3] == [0x01] + LE16(length);
    assert buf[..7] == buf[..3] + [0x00, service, clientId, 0x00];
    offset := 7;
    if service == 0x00 {
      buf[offset] := txId % 256;
      offset := offset + 1;
      assert buf[..offset] == buf[..7] + [txId % 256];
    } else {
      Append16(buf, offset, txId);
      offset := offset + 2;
    }
  }

  /** buildQMIMessage */
  method BuildQMIMessage(service: byte, clientId: byte, txId: nat, msgId: nat, tlvs: seq<byte>) returns (buf: array<byte>)
    ensures fresh(buf) && buf[..] == Frame(service, clientId, txId, msgId, tlvs)
  {
    hide LE16;
    var isCTL := service == 0x00;
    var sduLen := if isCTL then 6 + |tlvs| else 7 + |tlvs|;
    var qmuxLen := 5 + sduLen;
    buf := new byte[1 + qmuxLen](i => 0);
    var offset := FillPrefix(buf, service, clientId, txId, qmuxLen);
    Append16(buf, offset, msgId);
    offset := offset + 2;
    Append16(buf, offset, |tlvs|);
    offset := offset + 2;
    ghost var head := buf[..offset];
    CopyInto(buf, offset, tlvs);
    assert buf[..] == head + tlvs;
  }

  lemma {:induction false} Get16OfLE16(s: seq<byte>, o: nat, n: nat)
    requires o + 2 <= |s| && s[o..o + 2] == LE16(n)
    ensures Get16(s, o) == n % 0x1_0000
  {
    assert s[o] == s[o..o + 2][0] && s[o + 1] == s[o..o + 2][1];
  }

  /** The length fields are right exactly when the frame fits in 16 bits, and the TLVs stand where
      the readers of each kind of frame look for them. */
  lemma {:induction false} FrameLayout(service: byte, clientId: byte, txId: nat, msgId: nat, tlvs: seq<byte>)
    ensures var f, h := Frame(service, clientId, txId, msgId, tlvs), HeaderLength(service);
            && h == (if service == 0 then 12 else 13) && f[h..] == tlvs
            && f[0] == 0x01 && f[3] == 0x00 && f[4] == service && f[5] == clientId && f[6] == 0x00
            && (if service == 0 then f[7] == txId % 0x100 else Get16(f, 7) == txId % 0x1_0000)
            && (Get16(f, 1) == |f| - 1 <==> |f| <= 0x1_0000)
            && (Get16(f, h - 2) == |tlvs| <==> |tlvs| < 0x1_0000)
            && Get16(f, h - 4) == msgId % 0x1_0000
  {
    hide LE16, Get16;
    var f, h := Frame(service, clientId, txId, msgId, tlvs), HeaderLength(service);
    assert f[1..3] == LE16(|f| - 1) && f[h - 2..h] == LE16(|tlvs|) && f[h - 4..h - 2] == LE16(msgId);
    Get16OfLE16(f, 1, |f| - 1);
    if service != 0 {
      assert f[7..9] == LE16(txId);
      Get16OfLE16(f, 7, txId);
    }
    Get16OfLE16(f, h - 2, |tlvs|);
    Get16OfLE16(f, h - 4, msgId);
  }

  // ---------------------------------------------------------------- replies

  datatype ClientId = Client(id: byte) | ReplyTooShort | NoClientTlv

  /** The second octet of the first TLV of type 1 that has one. */
  function ClientIn(ts: seq<Tlv>): ClientId {
    if ts == [] then NoClientTlv
    else if ts[0].typ == 0x01 && |ts[0].value| >= 2 then Client(ts[0].value[1])
    else ClientIn(ts[1..])
  }

  method ExtractClientId(data: seq<byte>) returns (r: ClientId)
    ensures r == if |data| < 12 then ReplyTooShort else ClientIn(Tlvs(data[12..]))
  {
    hide Head, Get16;
    if |data| < 12 {
      return ReplyTooShort;
    }
    var tlvs := data[12..];
    var idx := 0;
    assert tlvs[0..] == tlvs;
    while idx + 3 <= |tlvs|
      invariant 0 <= idx <= |tlvs|
      invariant ClientIn(Tlvs(tlvs)) == ClientIn(Tlvs(tlvs[idx..]))
      decreases |tlvs| - idx
    {
      var typ, l := tlvs[idx], Get16(tlvs, idx + 1);
      HeadAt(tlvs, idx);
      if idx + 3 + l > |tlvs| {
        break;
      }
      var val := tlvs[idx + 3..idx + 3 + l];
      if typ == 0x01 && |val| >= 2 {
        return Client(val[1]);
      }
      idx := idx + 3 + l;
    }
    return NoClientTlv;
  }

  datatype Verdict = Accepted | Rejected(code: nat) | NoResultTlv | FrameTooShort

  /** The first result TLV that is long enough decides. */
  function ResultIn(ts: seq<Tlv>): Verdict {
    if ts == [] then NoResultTlv
    else if ts[0].typ == 0x02 && |ts[0].value| >= 4 then
      if Get16(ts[0].value, 0) != 0 then Rejected(Get16(ts[0].value, 2)) else Accepted
    else ResultIn(ts[1..])
  }

  /** Whatever precedes them, four octets or more of type 2 decide: a result of 0 is success, and any other a
      refusal with the error that follows. */
  lemma {:induction false} ResultFound(before: seq<Tlv>, result: nat, error: nat, more: seq<byte>, after: seq<Tlv>)
    requires forall i :: 0 <= i < |before| ==> before[i].typ != 0x02 || |before[i].value| < 4
    requires result < 0x1_0000 && error < 0x1_0000
    ensures var value := [result % 256, result / 256, error % 256, error / 256] + more;
            ResultIn(before + [Tlv(0x02, value)] + after) == if result == 0 then Accepted else Rejected(error)
  {
    var value := [result % 256, result / 256, error % 256, error / 256] + more;
    var ts := before + [Tlv(0x02, value)] + after;
    if before == [] {
      assert Get16(value, 0) == result && Get16(value, 2) == error;
    } else {
      ResultFound(before[1..], result, error, more, after);
      assert ts[1..] == before[1..] + [Tlv(0x02, value)] + after;
    }
  }

  /** Without such octets there is no verdict, and without a client's two octets of type 1 no client. */
  lemma {:induction false} NotThere(ts: seq<Tlv>)
    ensures ResultIn(ts) == NoResultTlv <==> forall i :: 0 <= i < |ts| ==> ts[i].typ != 0x02 || |ts[i].value| < 4
    ensures ClientIn(ts) == NoClientTlv <==> forall i :: 0 <= i < |ts| ==> ts[i].typ != 0x01 || |ts[i].value| < 2
  {
    hide Get16;
    if ts != [] {
      NotThere(ts[1..]);
      assert forall i :: 0 < i < |ts| ==> ts[i] == ts[1..][i - 1];
    }
  }

  function ResultOf(frame: seq<byte>): Verdict {
    if |frame| < 13 then FrameTooShort else ResultIn(Tlvs(frame[13..]))
  }

  /** parseQMIResultOnly */
  method ParseQMIResultOnly(frame: seq<byte>) returns (r: Verdict)
    ensures r == ResultOf(frame)
  {
    hide Head, Get16;
    if |frame| < 13 {
      return FrameTooShort;
    }
    var tlvs := frame[13..];
    var idx := 0;
    assert tlvs[0..] == tlvs;
    while idx + 3 <= |tlvs|
      invariant 0 <= idx <= |tlvs|
      invariant ResultIn(Tlvs(tlvs)) == ResultIn(Tlvs(tlvs[idx..]))
      decreases |tlvs| - idx
    {
      var typ, l := tlvs[idx], Get16(tlvs, idx + 1);
      HeadAt(tlvs, idx);
      if idx + 3 + l > |tlvs| {
        break;
      }
      var val := tlvs[idx + 3..idx + 3 + l];
      if typ == 0x02 && l >= 4 {
        if Get16(val, 0) != 0 {
          return Rejected(Get16(val, 2));
        }
        return Accepted;
      }
      idx := idx + 3 + l;
    }
    return NoResultTlv;
  }

  /** A control reply that carries the client TLV behind others yields that client. */
  lemma {:induction false} ClientFound(before: seq<Tlv>, service: byte, clientId: byte, after: seq<Tlv>)
    requires forall i :: 0 <= i < |before| ==> before[i].typ != 0x01 || |before[i].value| < 2
    ensures ClientIn(before + [Tlv(0x01, [service, clientId])] + after) == Client(clientId)
  {
    var ts := before + [Tlv(0x01, [service, clientId])] + after;
    if before != [] {
      ClientFound(before[1..], service, clientId, after);
      assert ts[1..] == before[1..] + [Tlv(0x01, [service, clientId])] + after;
    }
  }

  /** Allocation: whatever control frame carries such TLVs, the client id comes out. */
  lemma ClientComesBack(txId: nat, msgId: nat, before: seq<Tlv>, service: byte, clientId: byte, after: seq<Tlv>)
    requires forall i :: 0 <= i < |before| ==> Fits(before[i]) && (before[i].typ != 0x01 || |before[i].value| < 2)
    requires forall i :: 0 <= i < |after| ==> Fits(after[i])
    ensures var ts := before + [Tlv(0x01, [service, clientId])] + after;
            var f := Frame(0, 0, txId, msgId, EncodeTlvs(ts));
            |f| >= 12 && ClientIn(Tlvs(f[12..])) == Client(clientId)
  {
    var ts := before + [Tlv(0x01, [service, clientId])] + after;
    FrameLayout(0, 0, txId, msgId, EncodeTlvs(ts));
    TlvsReadBack(ts, []);
    assert EncodeTlvs(ts) + [] == EncodeTlvs(ts);
    ClientFound(before, service, clientId, after);
  }
}
