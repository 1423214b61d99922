/** Trimming a full PDU as the modem prints it: hexadecimal text around the octets. */
module PduHex {
  import opened Wrappers
  import opened Bytes
  import Text
  import opened PduTrim

  function DigitOf(c: char): (d: Option<nat>)
    ensures d.Some? ==> d.value < 16
  {
    if '0' <= c <= '9' then Some(c as int - '0' as int)
    else if 'a' <= c <= 'f' then Some(c as int - 'a' as int + 10)
    else if 'A' <= c <= 'F' then Some(c as int - 'A' as int + 10)
    else None
  }

  function UpperDigit(d: nat): (c: char)
    requires d < 16
    ensures DigitOf(c) == Some(d)
  {
    if d < 10 then '0' + d as char else 'A' + (d - 10) as char
  }

  /** hex.DecodeString; an odd length or a character that is no digit is an error. */
  function Decode(s: string): (b: Option<seq<byte>>)
    ensures b.Some? ==> |s| == 2 * |b.value|
  {
    if s == "" then Some([])
    else if |s| == 1 || DigitOf(s[0]).None? || DigitOf(s[1]).None? then None
    else
      var rest := Decode(s[2..]);
      if rest.None? then None
      else Some([16 * DigitOf(s[0]).value + DigitOf(s[1]).value] + rest.value)
  }

  /** Upper-case hexadecimal. */
  function Encode(b: seq<byte>): (s: string)
    ensures |s| == 2 * |b|
  {
    if b == [] then "" else [UpperDigit(b[0] as int / 16), UpperDigit(b[0] as int % 16)] + Encode(b[1..])
  }

  /** strings.ToUpper, on text that is all hexadecimal digits. */
  function ToUpper(s: string): (r: string)
    ensures |r| == |s|
  {
    if s == "" then "" else [if 'a' <= s[0] <= 'f' then s[0] - 'a' + 'A' else s[0]] + ToUpper(s[1..])
  }

  lemma {:induction false} DecodesEncoded(b: seq<byte>)
    ensures Decode(Encode(b)) == Some(b)
  {
    if b != [] {
      DecodesEncoded(b[1..]);
      assert Encode(b)[2..] == Encode(b[1..]);
      assert b == [b[0]] + b[1..];
    }
  }

  /** The digits, of either case. */
  lemma {:induction false} Digits(d: nat)
    requires d < 16
    ensures UpperDigit(d) == "0123456789ABCDEF"[d]
    ensures DigitOf("0123456789ABCDEF"[d]) == Some(d) && DigitOf("0123456789abcdef"[d]) == Some(d)
  {
  }

  /** Each octet is printed as two digits, the high one first. */
  lemma {:induction false} EncodedAt(b: seq<byte>, i: nat)
    requires i < |b|
    ensures Encode(b)[2 * i] == "0123456789ABCDEF"[b[i] as int / 16] && Encode(b)[2 * i + 1] == "0123456789ABCDEF"[b[i] as int % 16]
  {
    Digits(b[i] as int / 16);
    Digits(b[i] as int % 16);
    if i > 0 {
      EncodedAt(b[1..], i - 1);
    }
  }

  /** Text is hexadecimal exactly when it has an even number of characters and all of them are digits. */
  lemma {:induction false} DecodesIff(s: string)
    ensures Decode(s).Some? <==> |s| % 2 == 0 && forall i :: 0 <= i < |s| ==> DigitOf(s[i]).Some?
  {
    hide DigitOf;
    if |s| >= 2 {
      DecodesIff(s[2..]);
      assert forall i :: 2 <= i < |s| ==> s[i] == s[2..][i - 2];
    }
  }

  lemma UpperOf(c: char)
    requires DigitOf(c).Some?
    ensures UpperDigit(DigitOf(c).value) == if 'a' <= c <= 'f' then c - 'a' + 'A' else c
  {
  }

  /** Upper-casing digits is encoding what they decode to. */
  lemma {:induction false} UpperIsEncoded(s: string)
    requires Decode(s).Some?
    ensures ToUpper(s) == Encode(Decode(s).value)
  {
    if s != "" {
      UpperIsEncoded(s[2..]);
      UpperOf(s[0]);
      UpperOf(s[1]);
      UpperTwo(s);
      var b := Decode(s).value;
      assert b[1..] == Decode(s[2..]).value;
      assert b[0] as int / 16 == DigitOf(s[0]).value && b[0] as int % 16 == DigitOf(s[1]).value;
    }
  }

  lemma {:induction false} UpperTwo(s: string)
    requires |s| >= 2
    ensures ToUpper(s) == [if 'a' <= s[0] <= 'f' then s[0] - 'a' + 'A' else s[0], if 'a' <= s[1] <= 'f' then s[1] - 'a' + 'A' else s[1]]
                          + ToUpper(s[2..])
  {
    assert s[1..][1..] == s[2..];
  }

  lemma {:induction false} EncodedHasNoSpace(b: seq<byte>)
    ensures forall i :: 0 <= i < |Encode(b)| ==> !Text.IsSpace(Encode(b)[i])
  {
    if b != [] { EncodedHasNoSpace(b[1..]); }
  }

  /** TrimFullPDUHexByTPDULength */
  function TrimText(pduHex: string, tpduLen: int, schemes: Schemes): (r: (string, bool)) {
    var raw := Text.Trim(pduHex, Text.IsSpace);
    if raw == "" || tpduLen < 0 then (raw, false)
    else
      match Decode(raw)
      case None => (raw, false)
      case Some(b) =>
        if b == [] then (raw, false)
        else if 1 + b[0] as int + tpduLen > |b| then (ToUpper(raw), false)
        else
          var (full, trimmed) := TrimFull(b, tpduLen, schemes);
          (Encode(full), trimmed)
  }

  /** Text that is hexadecimal is trimmed as its octets are and printed in upper case; any other, or a
      negative length, only loses the white space around it. Doing it again changes nothing. */
  lemma TrimTextIs(pduHex: string, tpduLen: int, schemes: Schemes)
    ensures var raw, r := Text.Trim(pduHex, Text.IsSpace), TrimText(pduHex, tpduLen, schemes);
            && (r == if tpduLen >= 0 && Decode(raw).Some? then
                       (Encode(TrimFull(Decode(raw).value, tpduLen, schemes).0), TrimFull(Decode(raw).value, tpduLen, schemes).1)
                     else (raw, false))
            && TrimText(r.0, tpduLen, schemes) == (r.0, false)
  {
    hide TrimFull, Text.Trim, Text.IsSpace, Encode, ToUpper;
    var raw := Text.Trim(pduHex, Text.IsSpace);
    Text.TrimmedEnds(pduHex, Text.IsSpace);
    Text.TrimKeeps(raw, Text.IsSpace);
    if tpduLen >= 0 && Decode(raw).Some? {
      var b := Decode(raw).value;
      var full := TrimFull(b, tpduLen, schemes).0;
      UpperIsEncoded(raw);
      TrimFullKeeps(b, tpduLen, schemes);
      NoOctets(tpduLen, schemes);
      TooShort(b, tpduLen, schemes);
      DecodesEncoded(full);
      EncodedHasNoSpace(full);
      Text.TrimKeeps(Encode(full), Text.IsSpace);
      UpperIsEncoded(Encode(full));
      TooShort(full, tpduLen, schemes);
    }
  }

  lemma NoOctets(tpduLen: nat, schemes: Schemes)
    ensures TrimFull([], tpduLen, schemes) == ([], false) && Encode([]) == ""
  {
  }

  lemma TooShort(b: seq<byte>, tpduLen: nat, schemes: Schemes)
    ensures b != [] && 1 + b[0] as int + tpduLen > |b| ==> TrimFull(b, tpduLen, schemes) == (b, false)
  {
  }
}
