/** EF_PNN records: network names in a padded run of TLV objects. */
module PnnRecord {
  import opened Wrappers
  import opened Bytes

  datatype Object = Object(tag: byte, value: seq<byte>)

  datatype Record = Record(fullName: string, shortName: string, raw: seq<byte>)

  const FULL_NAME_TAG: byte := 0x43
  const SHORT_NAME_TAG: byte := 0x45

  /** The data up to its last octet that is not padding. */
  function Trimmed(data: seq<byte>): (r: seq<byte>)
    ensures |r| <= |data| && r == data[..|r|] && forall j :: |r| <= j < |data| ==> IsPadding(data[j])
    ensures r != [] ==> !IsPadding(r[|r| - 1])
  {
    if data != [] && IsPadding(data[|data| - 1]) then
      Trimmed(data[..|data| - 1])
    else data
  }

  /** The object that starts here, if it is a name and fits. */
  function Head(rest: seq<byte>): (o: Option<Object>)
    ensures o.Some? ==> 2 + |o.value.value| <= |rest| && rest[..2 + |o.value.value|] == EncodeOne(o.value)
  {
    if |rest| < 2 || (rest[0] != FULL_NAME_TAG && rest[0] != SHORT_NAME_TAG) then None
    else if rest[1] == 0 || 2 + rest[1] as int > |rest| then None
    else Some(Object(rest[0], rest[2..2 + rest[1]]))
  }

  function EncodeOne(o: Object): seq<byte> {
    [o.tag, |o.value| % 256] + o.value
  }

  function Encode(objects: seq<Object>): seq<byte> {
    if objects == [] then [] else EncodeOne(objects[0]) + Encode(objects[1..])
  }

  /** The names at the front of the data, up to the first thing that is not one. */
  function Objects(rest: seq<byte>): (os: seq<Object>)
    ensures Names(os)
  {
    match Head(rest)
    case None => []
    case Some(o) => [o] + Objects(rest[2 + |o.value|..])
  }

  /** They are a prefix of the data. */
  lemma {:induction false} ObjectsArePrefix(rest: seq<byte>)
    ensures |Encode(Objects(rest))| <= |rest| && rest[..|Encode(Objects(rest))|] == Encode(Objects(rest))
  {
    if Head(rest).Some? {
      var o := Head(rest).value;
      var n := 2 + |o.value|;
      ObjectsArePrefix(rest[n..]);
      EncodeCons(o, Objects(rest[n..]));
      assert rest == EncodeOne(o) + rest[n..];
    }
  }

  lemma {:induction false} EncodeCons(o: Object, os: seq<Object>)
    ensures Encode([o] + os) == EncodeOne(o) + Encode(os)
  {
    assert ([o] + os)[1..] == os;
  }

  predicate IsName(o: Object) {
    o.tag in {0x43, 0x45} && 0 < |o.value| < 256
  }

  predicate Names(os: seq<Object>) {
    forall i :: 0 <= i < |os| ==> IsName(os[i])
  }

  /** trimSIMPadding */
  method TrimPadding(data: seq<byte>) returns (r: seq<byte>)
    ensures r == Trimmed(data)
  {
    var end := |data|;
    assert data[..|data|] == data;
    while end > 0 && IsPadding(data[end - 1])
      invariant 0 <= end <= |data| && Trimmed(data[..end]) == Trimmed(data)
    {
      TrimLast(data, end);
      end := end - 1;
    }
    return data[..end];
  }

  lemma TrimLast(data: seq<byte>, end: nat)
    requires 0 < end <= |data| && IsPadding(data[end - 1])
    ensures Trimmed(data[..end]) == Trimmed(data[..end - 1])
  {
    assert data[..end][..end - 1] == data[..end - 1];
  }

  /** pnnTLVLength */
  method TlvLength(data: seq<byte>) returns (end: nat)
    ensures end == |Encode(Objects(Trimmed(data)))| && end <= |data|
  {
    hide Trimmed, Objects, Encode;
    var trimmed := TrimPadding(data);
    ObjectsArePrefix(trimmed);
    end := 0;
    var i := 0;
    assert trimmed[0..] == trimmed;
    while i + 2 <= |trimmed|
      invariant i == end <= |trimmed|
      invariant |Encode(Objects(trimmed))| == i + |Encode(Objects(trimmed[i..]))|
      decreases |trimmed| - i
    {
      NamesFrom(trimmed[i..]);
      var tag := trimmed[i];
      if tag == 0x00 || tag == 0xFF {
        return;
      }
      if tag != FULL_NAME_TAG && tag != SHORT_NAME_TAG {
        return;
      }
      var length := trimmed[i + 1];
      if length == 0 || i + 2 + length > |trimmed| {
        return;
      }
      assert trimmed[i..][2 + length..] == trimmed[i + 2 + length..];
      i := i + 2 + length;
      end := i;
    }
    NamesFrom(trimmed[i..]);
  }

  /** How much of the data is names: an object and what follows it, or nothing. */
  lemma {:induction false} NamesFrom(rest: seq<byte>)
    ensures |Encode(Objects(rest))| ==
            match Head(rest) {
              case None => 0
              case Some(o) => 2 + |o.value| + |Encode(Objects(rest[2 + |o.value|..]))|
            }
    ensures Head(rest).Some? ==> |Head(rest).value.value| == rest[1]
  {
    if Head(rest).Some? {
      assert Objects(rest)[1..] == Objects(rest[2 + |Head(rest).value.value|..]);
    }
  }

  /** The last object with this tag whose name can be read gives the name. */
  function LastName(os: seq<Object>, tag: byte, read: seq<byte> -> Option<string>): string {
    if os == [] then ""
    else
      var o := os[|os| - 1];
      if o.tag == tag && read(o.value).Some? then read(o.value).value else LastName(os[..|os| - 1], tag, read)
  }

  function RecordOf(os: seq<Object>, read: seq<byte> -> Option<string>): Record {
    Record(LastName(os, FULL_NAME_TAG, read), LastName(os, SHORT_NAME_TAG, read), Trimmed(Encode(os)))
  }

  /** A record's full name is the last one under tag 43 that can be read, its short name the last one under tag
      45, and each is empty if there is none. */
  lemma {:induction false} NamesOfRecord(os: seq<Object>, read: seq<byte> -> Option<string>, full: bool, i: nat)
    requires var tag := if full then 0x43 else 0x45;
             && i <= |os| && (forall j :: i < j < |os| ==> os[j].tag != tag || read(os[j].value) == None)
             && (i < |os| ==> os[i].tag == tag && read(os[i].value).Some?)
             && (i == |os| ==> forall j :: 0 <= j < |os| ==> os[j].tag != tag || read(os[j].value) == None)
    ensures var r := RecordOf(os, read);
            (if full then r.fullName else r.shortName) == if i < |os| then read(os[i].value).value else ""
  {
    hide Encode;
    LastNameIs(os, if full then 0x43 else 0x45, read, i);
  }

  lemma {:induction false} LastNameIs(os: seq<Object>, tag: byte, read: seq<byte> -> Option<string>, i: nat)
    requires i <= |os| && (forall j :: i < j < |os| ==> os[j].tag != tag || read(os[j].value) == None)
    requires i < |os| ==> os[i].tag == tag && read(os[i].value).Some?
    requires i == |os| ==> forall j :: 0 <= j < |os| ==> os[j].tag != tag || read(os[j].value) == None
    ensures LastName(os, tag, read) == if i < |os| then read(os[i].value).value else ""
  {
    if os != [] && i != |os| - 1 {
      var front := os[..|os| - 1];
      assert os[|os| - 1].tag != tag || read(os[|os| - 1].value) == None;
      LastNameIs(front, tag, read, if i < |os| then i else |front|);
    }
  }

  /** The second walk stops on lengths only; over what the first walk accepted both see the same
      objects. */
  lemma {:induction false} BothWalksAgree(os: seq<Object>, k: nat)
    requires Names(os) && k < |os|
    ensures |Encode(os[..k])| + 2 + |os[k].value| <= |Encode(os)|
    ensures var at := |Encode(os[..k])|;
            Encode(os)[at] == os[k].tag && Encode(os)[at + 1] == |os[k].value|
            && Encode(os)[at + 2..at + 2 + |os[k].value|] == os[k].value
    ensures |Encode(os[..k + 1])| == |Encode(os[..k])| + 2 + |os[k].value|
  {
    hide Encode;
    var o, more := os[0], os[1..];
    assert os == [o] + more && os[..k + 1] == [o] + more[..k];
    EncodeCons(o, more);
    EncodeCons(o, more[..k]);
    if k == 0 {
      assert os[..0] == [] && more[..0] == [];
      EncodeEmpty([]);
    } else {
      assert os[..k] == [o] + more[..k - 1];
      EncodeCons(o, more[..k - 1]);
      BothWalksAgree(more, k - 1);
    }
  }

  /** DecodePNNRecord; `read` stands for the name decoder. */
  method DecodeRecord(data: seq<byte>, read: seq<byte> -> Option<string>) returns (out: Record, ok: bool)
    ensures var os := Objects(Trimmed(data));
            ok == (os != []) && out == if ok then RecordOf(os, read) else Record("", "", [])
  {
    hide Objects, Trimmed, Encode, Names;
    var length := TlvLength(data);
    ghost var os := Objects(Trimmed(data));
    var body := data[..length];
    ObjectsArePrefix(Trimmed(data));
    assert body == Encode(os) by { assert Trimmed(data) == data[..|Trimmed(data)|]; }
    EncodeEmpty(os);
    if |body| == 0 {
      return Record("", "", []), false;
    }
    var raw := TrimPadding(body);
    NotAllPadding(os);
    var full, short, i := "", "", 0;
    ghost var k := 0;
    EncodeEmpty([]);
    while i + 2 <= |body|
      invariant 0 <= k <= |os| && i == |Encode(os[..k])| <= |body|
      invariant full == LastName(os[..k], FULL_NAME_TAG, read) && short == LastName(os[..k], SHORT_NAME_TAG, read)
      decreases |body| - i
    {
      Inside(os, k);
      BothWalksAgree(os, k);
      assert os[..k + 1][..k] == os[..k];
      var tag, n := body[i], body[i + 1];
      i := i + 2;
      if i + n > |body| {
        break;
      }
      var value := body[i..i + n];
      i := i + n;
      if tag == FULL_NAME_TAG {
        if read(value).Some? { full := read(value).value; }
      } else if tag == SHORT_NAME_TAG {
        if read(value).Some? { short := read(value).value; }
      }
      k := k + 1;
    }
    AtEnd(os, k);
    out := Record(full, short, raw);
    ok := out.fullName != "" || out.shortName != "" || |out.raw| > 0;
  }

  lemma EncodeEmpty(os: seq<Object>)
    ensures Encode(os) == [] <==> os == []
  {
  }

  lemma Inside(os: seq<Object>, k: nat)
    requires k <= |os| && |Encode(os[..k])| < |Encode(os)|
    ensures k < |os|
  {
    assert os[..|os|] == os;
  }

  lemma AtEnd(os: seq<Object>, k: nat)
    requires Names(os) && k <= |os| && |Encode(os)| < |Encode(os[..k])| + 2
    ensures os[..k] == os
  {
    if k < |os| { BothWalksAgree(os, k); }
  }

  lemma NotAllPadding(os: seq<Object>)
    requires Names(os) && os != []
    ensures Trimmed(Encode(os)) != []
  {
    var e := Encode(os);
    assert e[0..] == e && !IsPadding(e[0]);
  }

  // ---------------------------------------------------------------- what a card holds

  predicate EndsInPadding(s: seq<byte>) {
    s != [] && s[|s| - 1] in {0x00, 0xFF}
  }

  lemma {:induction false} TrimOne(s: seq<byte>, b: byte)
    requires b == 0x00 || b == 0xFF
    ensures Trimmed(s + [b]) == Trimmed(s)
  {
    assert (s + [b])[..|s|] == s;
  }

  lemma {:induction false} TrimPadded(e: seq<byte>, pad: seq<byte>)
    requires AllPadding(pad)
    ensures Trimmed(e + pad) == Trimmed(e)
  {
    hide Trimmed;
    if pad == [] {
      assert e + pad == e;
    } else {
      var front, last := pad[..|pad| - 1], pad[|pad| - 1];
      TrimPadded(e, front);
      TrimOne(e + front, last);
      assert e + pad == e + front + [last];
    }
  }

  lemma {:induction false} HeadOf(o: Object, more: seq<byte>)
    requires IsName(o)
    ensures Head(EncodeOne(o) + more) == Some(o)
    ensures (EncodeOne(o) + more)[2 + |o.value|..] == more
  {
    var rest := EncodeOne(o) + more;
    assert rest[2..2 + |o.value|] == o.value;
  }

  lemma {:induction false} ObjectsCons(o: Object, more: seq<byte>)
    requires IsName(o)
    ensures Objects(EncodeOne(o) + more) == [o] + Objects(more)
  {
    hide Head, EncodeOne;
    HeadOf(o, more);
  }

  lemma {:induction false} ObjectsThenTail(os: seq<Object>, tail: seq<byte>)
    requires Names(os) && Head(tail) == None
    ensures Objects(Encode(os) + tail) == os
  {
    if os == [] {
      assert Encode(os) + tail == tail;
    } else {
      hide Head, EncodeOne, Objects, Encode;
      var o, rest := os[0], os[1..];
      assert os == [o] + rest;
      EncodeCons(o, rest);
      assert EncodeOne(o) + Encode(rest) + tail == EncodeOne(o) + (Encode(rest) + tail);
      ObjectsCons(o, Encode(rest) + tail);
      ObjectsThenTail(rest, tail);
    }
  }

  lemma {:induction false} EncodeLast(os: seq<Object>)
    requires os != []
    ensures Encode(os) == Encode(os[..|os| - 1]) + EncodeOne(os[|os| - 1])
  {
    hide EncodeOne, Encode;
    var o, rest := os[0], os[1..];
    assert os == [o] + rest;
    EncodeCons(o, rest);
    EncodeEmpty([]);
    if rest == [] {
      assert os[..0] == [];
    } else {
      EncodeLast(rest);
      assert os[..|os| - 1] == [o] + rest[..|rest| - 1];
      EncodeCons(o, rest[..|rest| - 1]);
    }
  }

  /** Trimming stops at an octet that is not padding. */
  lemma TrimStops(e: seq<byte>, at: nat)
    requires at < |e| && !IsPadding(e[at])
    ensures at < |Trimmed(e)|
  {
  }

  /** An object that lost its end no longer starts anything. */
  lemma CutObject(o: Object, n: nat)
    requires IsName(o) && n < 2 + |o.value|
    ensures |EncodeOne(o)| == 2 + |o.value| && Head(EncodeOne(o)[..n]) == None
  {
  }

  lemma LastCut(front: seq<Object>, o: Object)
    requires Names(front) && IsName(o) && EndsInPadding(o.value)
    ensures Objects(Trimmed(Encode(front) + EncodeOne(o))) == front
  {
    hide Head, Objects, Encode, Names;
    var e, at := Encode(front) + EncodeOne(o), |Encode(front)|;
    assert e[at] == o.tag && e[|e| - 1] == o.value[|o.value| - 1];
    TrimStops(e, at);
    var t := Trimmed(e);
    assert |t| < |e|;
    CutObject(o, |t| - at);
    assert t == Encode(front) + EncodeOne(o)[..|t| - at];
    ObjectsThenTail(front, EncodeOne(o)[..|t| - at]);
  }

  /** Reading a padded record: every object comes back, except that a last value that itself ends
      in 00 or FF is trimmed with the padding and its object is lost; the others are unharmed. */
  lemma PaddedRecord(os: seq<Object>, pad: seq<byte>)
    requires Names(os) && AllPadding(pad)
    ensures Objects(Trimmed(Encode(os) + pad)) ==
            if os != [] && EndsInPadding(os[|os| - 1].value) then os[..|os| - 1] else os
  {
    TrimPadded(Encode(os), pad);
    if os == [] {
      assert Objects([]) == [];
    } else {
      var front, o := os[..|os| - 1], os[|os| - 1];
      EncodeLast(os);
      if EndsInPadding(o.value) {
        LastCut(front, o);
      } else {
        assert Encode(os)[|Encode(os)| - 1] == o.value[|o.value| - 1];
        ObjectsThenTail(os, []);
        assert Encode(os) + [] == Encode(os);
      }
    }
  }
}
