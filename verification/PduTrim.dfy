/** SMS-DELIVER: cutting a TPDU to its declared length and clearing the bits the septets leave
    over. */
module PduTrim {
  import opened Wrappers
  import opened Bytes
  import opened Binary

  datatype Alphabet = SevenBit | EightBit | UCS2

  /** The data coding scheme's alphabet, or none if the scheme is not recognised. */
  type Schemes = byte -> Option<Alphabet>

  datatype Layout = Layout(dcs: byte, udl: nat, udOffset: nat, udOctets: nat, alphabet: Alphabet)

  /** Octets of the originating address, from its length in semi-octets. */
  function AddressOctets(oaLen: byte): nat {
    (oaLen as int + 1) / 2
  }

  function UserDataOctets(udl: nat, a: Alphabet): nat {
    if a == SevenBit then (udl * 7 + 7) / 8 else udl
  }

  /** Where everything lies: octet 0, the address's length and type, the address, the protocol
      identifier, the coding scheme, seven octets of time stamp, the user-data length. */
  function LayoutOf(t: seq<byte>, schemes: Schemes): (l: Option<Layout>)
    ensures l.Some? ==> l.value.udOffset + l.value.udOctets <= |t|
    ensures l.Some? ==> l.value.udOctets == UserDataOctets(l.value.udl, l.value.alphabet)
  {
    if |t| < 3 || t[0] % 4 != 0 then None
    else
      var at := 3 + AddressOctets(t[1]);
      if at + 10 > |t| || schemes(t[at + 1]) == None then None
      else
        var a := schemes(t[at + 1]).value;
        var udl := t[at + 9];
        if at + 10 + UserDataOctets(udl, a) > |t| then None
        else Some(Layout(t[at + 1], udl, at + 10, UserDataOctets(udl, a), a))
  }

  /** deliverTPDULayout */
  method DeliverTPDULayout(t: seq<byte>, schemes: Schemes) returns (l: Option<Layout>)
    ensures l == LayoutOf(t, schemes)
  {
    if |t| < 1 || t[0] % 4 != 0 {
      return None;
    }
    var i: nat := 1;
    if i + 2 > |t| {
      return None;
    }
    var oaLen := t[i];
    i := i + 2;
    var oaOctets := (oaLen as int + 1) / 2;
    if i + oaOctets > |t| {
      return None;
    }
    i := i + oaOctets;
    if i + 10 > |t| {
      return None;
    }
    var dcs := t[i + 1];
    i := i + 2 + 7;
    var udl: nat := t[i] as int;
    i := i + 1;
    var alphabet := schemes(dcs);
    if alphabet == None {
      return None;
    }
    var udOctets := udl;
    if alphabet.value == SevenBit {
      udOctets := (udl * 7 + 7) / 8;
    }
    if i + udOctets > |t| {
      return None;
    }
    return Some(Layout(dcs, udl, i, udOctets, alphabet.value));
  }

  /** An SMS-DELIVER TPDU by its fields (section 9.2.2.1 of 3GPP TS 23.040), the user data followed by
      whatever the modem left behind it. */
  datatype Deliver = Deliver(first: byte, oaLen: byte, toa: byte, address: seq<byte>, pid: byte, dcs: byte,
                             timeStamp: seq<byte>, udl: byte, userData: seq<byte>, trailing: seq<byte>)

  /** The fields have the sizes their lengths announce. */
  predicate ValidDeliver(d: Deliver, schemes: Schemes) {
    && d.first % 4 == 0 && |d.timeStamp| == 7
    && |d.address| == d.oaLen as int / 2 + d.oaLen as int % 2
    && schemes(d.dcs).Some?
    && if schemes(d.dcs).value == SevenBit then 7 * d.udl as int <= 8 * |d.userData| < 7 * d.udl as int + 8
       else |d.userData| == d.udl as int
  }

  function Header(d: Deliver): seq<byte> {
    [d.first, d.oaLen, d.toa] + d.address + [d.pid, d.dcs] + d.timeStamp + [d.udl]
  }

  function EncodeDeliver(d: Deliver): seq<byte> {
    Header(d) + d.userData + d.trailing
  }

  /** The layout names the fields' own places. */
  lemma {:induction false} LayoutOfDeliver(d: Deliver, schemes: Schemes)
    requires ValidDeliver(d, schemes)
    ensures LayoutOf(EncodeDeliver(d), schemes) ==
            Some(Layout(d.dcs, d.udl as int, |Header(d)|, |d.userData|, schemes(d.dcs).value))
  {
    var t, h, at := EncodeDeliver(d), Header(d), 3 + |d.address|;
    assert h[0] == d.first && h[1] == d.oaLen && h[at + 1] == d.dcs && h[at + 9] == d.udl;
    assert t[..|h|] == h;
    assert t[0] == t[..|h|][0] && t[1] == t[..|h|][1] && t[at + 1] == t[..|h|][at + 1] && t[at + 9] == t[..|h|][at + 9];
  }

  /** And there is a layout only where the octets are such a TPDU. */
  lemma LayoutMeansDeliver(t: seq<byte>, schemes: Schemes) returns (d: Deliver)
    requires LayoutOf(t, schemes).Some?
    ensures ValidDeliver(d, schemes) && EncodeDeliver(d) == t
  {
    var l := LayoutOf(t, schemes).value;
    var at, ud := 3 + AddressOctets(t[1]), l.udOffset;
    d := Deliver(t[0], t[1], t[2], t[3..at], t[at], t[at + 1], t[at + 2..at + 9], t[at + 9],
                 t[ud..ud + l.udOctets], t[ud + l.udOctets..]);
    assert Header(d) == t[..ud];
  }

  /** So trimming cuts off exactly what lies behind the user data. */
  lemma TrimCutsTrailing(d: Deliver, schemes: Schemes)
    requires ValidDeliver(d, schemes)
    ensures Trim(EncodeDeliver(d), schemes) == (EncodeDeliver(d.(trailing := [])), d.trailing != [])
  {
    hide LayoutOf, Header;
    LayoutOfDeliver(d, schemes);
    HeaderIgnoresTrailing(d);
    assert EncodeDeliver(d)[..|Header(d)| + |d.userData|] == EncodeDeliver(d.(trailing := []));
  }

  lemma HeaderIgnoresTrailing(d: Deliver)
    ensures Header(d.(trailing := [])) == Header(d)
  {
  }

  // ---------------------------------------------------------------- the two operations

  function DeclaredLength(l: Layout): nat {
    l.udOffset + l.udOctets
  }

  /** TrimDeliverTPDUToDeclaredLength: the octets, and whether they changed. */
  function Trim(t: seq<byte>, schemes: Schemes): (r: (seq<byte>, bool)) {
    var l := LayoutOf(t, schemes);
    if l == None || DeclaredLength(l.value) >= |t| then (t, false) else (t[..DeclaredLength(l.value)], true)
  }

  /** Bits of the last octet that belong to septets; 0 means all of them. */
  function UsedBits(udl: nat): (n: nat)
    ensures n < 8
  {
    udl * 7 % 8
  }

  predicate HasSpareBits(l: Layout) {
    l.alphabet == SevenBit && l.udl != 0 && UsedBits(l.udl) != 0
  }

  lemma {:induction false} MaskFits(x: byte, m: nat)
    requires m < 8
    ensures 0 <= x as int % Pow2(m) <= x as int
  {
    DivMod(x as int, Pow2(m));
    QuotientNat(x as int, Pow2(m));
  }

  function Clear(t: seq<byte>, schemes: Schemes): (r: (seq<byte>, bool)) {
    var l := LayoutOf(t, schemes);
    if l == None || !HasSpareBits(l.value) then (t, false)
    else
      var last := DeclaredLength(l.value) - 1;
      MaskFits(t[last], UsedBits(l.value.udl));
      var kept := t[last] as int % Pow2(UsedBits(l.value.udl));
      if kept == t[last] as int then (t, false) else (t[last := kept], true)
  }

  /** normalizeDeliverTPDUGSM7SpareBits */
  method NormalizeSpareBits(t: seq<byte>, schemes: Schemes) returns (r: seq<byte>, changed: bool)
    ensures (r, changed) == Clear(t, schemes)
  {
    hide LayoutOf, And, AndNot;
    var l := DeliverTPDULayout(t, schemes);
    if l == None || l.value.alphabet != SevenBit || l.value.udl == 0 || l.value.udOctets == 0 {
      return t, false;
    }
    var want := l.value.udOffset + l.value.udOctets;
    if want > |t| {
      return t, false;
    }
    var usedBits := l.value.udl * 7 % 8;
    if usedBits == 0 {
      return t, false;
    }
    var mask := Pow2(usedBits) - 1;
    var last := want - 1;
    AndMask(t[last], usedBits);
    AndNotIs(t[last], mask);
    if AndNot(t[last], mask) == 0 {
      return t, false;
    }
    var out := new byte[|t|](i requires 0 <= i < |t| => t[i]);
    out[last] := And(out[last], mask);
    assert out[..] == t[last := And(t[last], mask)];
    return out[..], true;
  }

  // ---------------------------------------------------------------- what they keep

  /** The layout is read from the octets before the user data and a bound on the rest. */
  lemma {:induction false} LayoutFromHeader(t: seq<byte>, t': seq<byte>, schemes: Schemes)
    requires LayoutOf(t, schemes).Some?
    requires var l := LayoutOf(t, schemes).value; DeclaredLength(l) <= |t'| && t'[..l.udOffset] == t[..l.udOffset]
    ensures LayoutOf(t', schemes) == LayoutOf(t, schemes)
  {
    var l := LayoutOf(t, schemes).value;
    assert forall i :: 0 <= i < l.udOffset ==> t'[i] == t'[..l.udOffset][i] == t[..l.udOffset][i] == t[i];
  }

  lemma {:induction false} TrimKeepsLayout(t: seq<byte>, schemes: Schemes)
    ensures LayoutOf(Trim(t, schemes).0, schemes) == LayoutOf(t, schemes)
  {
    hide LayoutOf;
    if LayoutOf(t, schemes).Some? {
      LayoutFromHeader(t, Trim(t, schemes).0, schemes);
    }
  }

  /** What clearing does: nothing, or one octet of the user data, the last declared one, loses
      its bits from UsedBits up. */
  lemma {:induction false} ClearTouchesLast(t: seq<byte>, schemes: Schemes)
    ensures var (r, changed) := Clear(t, schemes);
            var l := LayoutOf(t, schemes);
            && |r| == |t| && (changed <==> r != t)
            && if l == None || !HasSpareBits(l.value) then !changed
               else
                 var last := DeclaredLength(l.value) - 1;
                 && l.value.udOffset <= last < |t|
                 && r == t[last := t[last] as int % Pow2(UsedBits(l.value.udl))]
  {
    hide LayoutOf;
    var l := LayoutOf(t, schemes);
    if l.Some? && HasSpareBits(l.value) {
      var last := DeclaredLength(l.value) - 1;
      MaskFits(t[last], UsedBits(l.value.udl));
      assert t == t[last := t[last]];
    }
  }

  lemma {:induction false} ClearKeepsLayout(t: seq<byte>, schemes: Schemes)
    ensures LayoutOf(Clear(t, schemes).0, schemes) == LayoutOf(t, schemes)
  {
    hide LayoutOf, Clear, HasSpareBits;
    ClearTouchesLast(t, schemes);
    if LayoutOf(t, schemes).Some? {
      LayoutFromHeader(t, Clear(t, schemes).0, schemes);
    }
  }

  /** Trimming returns the prefix of exactly the declared length, whenever one is declared. */
  lemma {:induction false} TrimIsDeclaredPrefix(t: seq<byte>, schemes: Schemes)
    ensures var (r, changed) := Trim(t, schemes);
            && r == (if LayoutOf(t, schemes).Some? then t[..DeclaredLength(LayoutOf(t, schemes).value)] else t)
            && (changed <==> r != t)
  {
    hide LayoutOf;
  }

  lemma {:induction false} TrimTwice(t: seq<byte>, schemes: Schemes)
    ensures var r := Trim(t, schemes).0; Trim(r, schemes) == (r, false)
  {
    hide LayoutOf;
    TrimKeepsLayout(t, schemes);
  }

  lemma ModMod(x: nat, m: nat)
    ensures x % Pow2(m) % Pow2(m) == x % Pow2(m)
  {
    DivMod(x, Pow2(m));
    QuotientIs(x % Pow2(m), Pow2(m), 0, x % Pow2(m));
  }

  lemma ClearTwice(t: seq<byte>, schemes: Schemes)
    ensures var r := Clear(t, schemes).0; Clear(r, schemes) == (r, false)
  {
    hide LayoutOf;
    ClearKeepsLayout(t, schemes);
    ClearTouchesLast(t, schemes);
    var l := LayoutOf(t, schemes);
    if l.Some? && HasSpareBits(l.value) {
      ModMod(t[DeclaredLength(l.value) - 1] as int, UsedBits(l.value.udl));
    }
  }

  /** The two commute. */
  lemma {:induction false} TrimClearCommute(t: seq<byte>, schemes: Schemes)
    ensures Clear(Trim(t, schemes).0, schemes).0 == Trim(Clear(t, schemes).0, schemes).0
  {
    hide LayoutOf, Clear, HasSpareBits;
    var trimmed := Trim(t, schemes).0;
    TrimKeepsLayout(t, schemes);
    ClearKeepsLayout(t, schemes);
    ClearTouchesLast(t, schemes);
    ClearTouchesLast(trimmed, schemes);
  }

  // ---------------------------------------------------------------- user data, bit by bit

  /** Bit p of the user data. */
  function DataBit(t: seq<byte>, l: Layout, p: nat): (b: nat)
    requires DeclaredLength(l) <= |t| && p < 8 * l.udOctets
  {
    Bit(t[l.udOffset + p / 8], p % 8)
  }

  lemma BitOfMod(x: nat, m: nat, k: nat)
    ensures Bit(x % Pow2(m), k) == if k < m then Bit(x, k) else 0
  {
    hide Bit, Pow2;
    var lo, hi := x % Pow2(m), x / Pow2(m);
    DivMod(x, Pow2(m));
    BitOfSum(lo, hi, m, k);
    BitOfSum(lo, 0, m, k);
    if k >= m { BitZero(k - m); }
  }

  lemma SplitSpare(udl: nat, p: nat)
    requires UsedBits(udl) != 0
    ensures var octets := (udl * 7 + 7) / 8;
            && (p / 8 == octets - 1 ==> (p < 7 * udl <==> p % 8 < UsedBits(udl)))
            && (p / 8 < octets - 1 ==> p < 7 * udl)
  {
  }

  /** With septets, clearing leaves every bit that belongs to one and zeroes all the others the
      user data has; with octets it changes nothing. */
  lemma ClearBits(t: seq<byte>, schemes: Schemes, p: nat)
    requires LayoutOf(t, schemes).Some? && p < 8 * LayoutOf(t, schemes).value.udOctets
    ensures var l := LayoutOf(t, schemes).value;
            var r := Clear(t, schemes).0;
            |r| == |t| && DataBit(r, l, p) == if l.alphabet == SevenBit && p >= 7 * l.udl then 0 else DataBit(t, l, p)
  {
    hide LayoutOf, Clear, Bit, Pow2, UsedBits;
    var l := LayoutOf(t, schemes).value;
    ClearTouchesLast(t, schemes);
    if HasSpareBits(l) {
      SplitSpare(l.udl, p);
      BitOfMod(t[DeclaredLength(l) - 1], UsedBits(l.udl), p % 8);
    } else if l.alphabet == SevenBit {
      NoSpare(l.udl, p);
    }
  }

  lemma WholeOctets(bits: nat)
    requires bits % 8 == 0
    ensures (bits + 7) / 8 * 8 == bits
  {
    var q := bits / 8;
    assert (8 * q + 7) / 8 == q;
  }

  lemma NoSpare(udl: nat, p: nat)
    requires UsedBits(udl) == 0 && p < (udl * 7 + 7) / 8 * 8
    ensures p < 7 * udl
  {
    WholeOctets(udl * 7);
  }

  /** Nothing outside the user data's last octet changes. */
  lemma {:induction false} ClearElsewhere(t: seq<byte>, schemes: Schemes, i: nat)
    requires i < |t|
    requires LayoutOf(t, schemes).Some? ==> i != DeclaredLength(LayoutOf(t, schemes).value) - 1
    ensures Clear(t, schemes).0[i] == t[i]
  {
    hide LayoutOf, Clear;
    ClearTouchesLast(t, schemes);
  }

  // ---------------------------------------------------------------- a full PDU

  /** TrimFullPDUHexByTPDULength on the decoded octets: a service-centre address, then the TPDU
      with the length the modem reported. Octets that do not reach that far are left alone. */
  function TrimFull(b: seq<byte>, tpduLen: nat, schemes: Schemes): (r: (seq<byte>, bool)) {
    if b == [] || 1 + b[0] as int + tpduLen > |b| then (b, false)
    else
      var offset := 1 + b[0] as int;
      var full := b[..offset + tpduLen];
      var (tpdu, cut) := Trim(full[offset..], schemes);
      (full[..offset] + tpdu, cut || |full| < |b|)
  }

  /** The address stays, the TPDU is the reported octets cut to their declared length, and doing it
      again changes nothing. */
  lemma {:induction false} TrimFullKeeps(b: seq<byte>, tpduLen: nat, schemes: Schemes)
    ensures var (r, changed) := TrimFull(b, tpduLen, schemes);
            && |r| <= |b| && r == b[..|r|] && (changed <==> |r| < |b|)
            && TrimFull(r, tpduLen, schemes) == (r, false)
    ensures b != [] && 1 + b[0] as int + tpduLen <= |b| ==>
              var offset := 1 + b[0] as int;
              && |TrimFull(b, tpduLen, schemes).0| >= offset
              && TrimFull(b, tpduLen, schemes).0[offset..] == Trim(b[offset..offset + tpduLen], schemes).0
    ensures b == [] || 1 + b[0] as int + tpduLen > |b| ==> TrimFull(b, tpduLen, schemes) == (b, false)
  {
    hide Trim;
    if b != [] && 1 + b[0] as int + tpduLen <= |b| {
      var offset := 1 + b[0] as int;
      var full := b[..offset + tpduLen];
      assert full[offset..] == b[offset..offset + tpduLen];
      var tpdu := Trim(full[offset..], schemes).0;
      TrimIsPrefix(full[offset..], schemes);
      TrimTwice(full[offset..], schemes);
      var r := full[..offset] + tpdu;
      assert r[0] == b[0] && r[offset..] == tpdu && r[..offset] == full[..offset];
      assert r[..|r|] == r;
    }
  }

  lemma {:induction false} TrimIsPrefix(t: seq<byte>, schemes: Schemes)
    ensures var (r, cut) := Trim(t, schemes); |r| <= |t| && r == t[..|r|] && (cut <==> |r| < |t|)
  {
  }
}
