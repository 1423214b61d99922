/** Collecting the values of one tag from a forest of BER-TLV objects. */
module BerTlv {
  import opened Wrappers
  import opened Bytes

  /** An object as the scanner takes it from the data, with the offset just after it. */
  datatype Object = Object(tag: seq<byte>, value: seq<byte>, end: nat)

  /** The low five bits all set: the tag goes on. */
  predicate TagGoesOn(b: byte) { b % 32 == 31 }

  predicate IsConstructed(b: byte) { b / 32 % 2 == 1 }

  // ---------------------------------------------------------------- one object

  /** Where padding ends. */
  function SkipPadding(s: seq<byte>, i: nat): (j: nat)
    requires i <= |s|
    ensures i <= j <= |s|
    decreases |s| - i
  {
    if i < |s| && IsPadding(s[i]) then SkipPadding(s, i + 1) else i
  }

  /** Just after the first octet, from i on, whose top bit is clear. */
  function TagTail(s: seq<byte>, i: nat): (j: nat)
    requires i <= |s|
    ensures i <= j <= |s|
    decreases |s| - i
  {
    if i == |s| then i else if s[i] < 0x80 then i + 1 else TagTail(s, i + 1)
  }

  function TagEnd(s: seq<byte>, start: nat): (j: nat)
    requires start < |s|
    ensures start < j <= |s|
  {
    if TagGoesOn(s[start]) then TagTail(s, start + 1) else start + 1
  }

  function BigEndian(s: seq<byte>): (n: nat) {
    if s == [] then 0 else 256 * BigEndian(s[..|s| - 1]) + s[|s| - 1] as int
  }

  /** The length field at i: the length and the offset of the value. */
  function LengthAt(s: seq<byte>, i: nat): (r: Option<(nat, nat)>)
    requires i < |s|
    ensures r.Some? ==> i < r.value.1 <= |s|
  {
    if s[i] < 0x80 then Some((s[i] as int, i + 1))
    else
      var n := s[i] - 0x80;
      if n <= 0 || n > 3 || i + 1 + n > |s| then None
      else Some((BigEndian(s[i + 1..i + 1 + n]), i + 1 + n))
  }

  function NextObject(s: seq<byte>): (o: Option<Object>)
    ensures o.Some? ==>
      && 0 < o.value.end <= |s| && |o.value.value| < o.value.end
      && s[o.value.end - |o.value.value|..o.value.end] == o.value.value && o.value.tag != []
  {
    var start := SkipPadding(s, 0);
    if start == |s| then None
    else
      var i := TagEnd(s, start);
      if i == |s| then None
      else
        match LengthAt(s, i)
        case None => None
        case Some((length, at)) =>
          if at + length > |s| then None else Some(Object(s[start..i], s[at..at + length], at + length))
  }

  /** The values in s whose one-octet tag is `want`, outer before inner, in order. */
  function Collected(s: seq<byte>, want: byte): (vs: seq<seq<byte>>)
    decreases |s|
  {
    match NextObject(s)
    case None => []
    case Some(o) =>
      (if o.tag == [want] then [o.value] else []) +
      (if IsConstructed(o.tag[0]) then Collected(o.value, want) else []) +
      Collected(s[o.end..], want)
  }

  predicate IsSlice(v: seq<byte>, s: seq<byte>) {
    exists a, b :: 0 <= a <= b <= |s| && s[a..b] == v
  }

  lemma SliceOfSlice(v: seq<byte>, s: seq<byte>, a: nat, b: nat)
    requires a <= b <= |s| && IsSlice(v, s[a..b])
    ensures IsSlice(v, s)
  {
    var mid := s[a..b];
    var c, d :| 0 <= c <= d <= |mid| && mid[c..d] == v;
    assert forall k :: 0 <= k < |v| ==> v[k] == mid[c + k] == s[a + c + k];
    assert s[a + c..a + d] == v;
  }

  /** Whatever the data, every value collected is a piece of it. */
  lemma {:induction false} CollectsSlices(s: seq<byte>, want: byte)
    ensures forall v :: v in Collected(s, want) ==> IsSlice(v, s)
    decreases |s|
  {
    hide NextObject;
    match NextObject(s) {
      case None =>
      case Some(o) =>
        var a := o.end - |o.value|;
        assert s[a..o.end] == o.value && s[o.end..|s|] == s[o.end..];
        CollectsSlices(o.value, want);
        CollectsSlices(s[o.end..], want);
        forall v | v in Collected(s, want) ensures IsSlice(v, s) {
          if v in Collected(s[o.end..], want) {
            SliceOfSlice(v, s, o.end, |s|);
          } else if IsConstructed(o.tag[0]) && v in Collected(o.value, want) {
            SliceOfSlice(v, s, a, o.end);
          } else {
            assert v == o.value;
          }
        }
    }
  }

  // ---------------------------------------------------------------- the scanner

  method CollectTLVValues(data: seq<byte>, want: byte) returns (out: seq<seq<byte>>)
    ensures out == Collected(data, want)
    decreases |data|
  {
    hide NextObject, Collected;
    out := [];
    var i := 0;
    assert data[0..] == data;
    while i < |data|
      invariant 0 <= i <= |data|
      invariant out + Collected(data[i..], want) == Collected(data, want)
      decreases |data| - i
    {
      ghost var rest := data[i..];
      var o := ScanObject(data, i);
      CollectedStep(rest, want);
      if o == None {
        return;
      }
      var Object(tag, value, end) := o.value;
      if |tag| == 1 && tag[0] == want {
        out := out + [value];
      }
      if tag[0] / 32 % 2 == 1 {
        var inner := CollectTLVValues(value, want);
        out := out + inner;
      }
      assert rest[end..] == data[i + end..];
      i := i + end;
    }
    CollectedStep(data[i..], want);
    NothingLeft(want);
  }

  lemma NothingLeft(want: byte)
    ensures Collected([], want) == []
  {
  }

  lemma CollectedStep(rest: seq<byte>, want: byte)
    ensures Collected(rest, want) ==
      match NextObject(rest) {
        case None => []
        case Some(o) =>
          (if |o.tag| == 1 && o.tag[0] == want then [o.value] else []) +
          (if o.tag[0] / 32 % 2 == 1 then Collected(o.value, want) else []) +
          Collected(rest[o.end..], want)
      }
  {
  }

  method ScanTag(s: seq<byte>, start: nat) returns (i: nat)
    requires start < |s|
    ensures i == TagEnd(s, start)
  {
    i := start + 1;
    if s[start] % 32 == 31 {
      while i < |s|
        invariant start < i <= |s| && TagEnd(s, start) == TagTail(s, i)
      {
        var b := s[i];
        i := i + 1;
        if b < 0x80 {
          break;
        }
      }
    }
  }

  method ScanLength(s: seq<byte>, at: nat) returns (r: Option<(nat, nat)>)
    requires at < |s|
    ensures r == LengthAt(s, at)
  {
    var lengthByte := s[at];
    if lengthByte < 0x80 {
      return Some((lengthByte as int, at + 1));
    }
    var n := lengthByte % 0x80;
    if n <= 0 || n > 3 || at + 1 + n > |s| {
      return None;
    }
    var length: nat := 0;
    ghost var field := s[at + 1..at + 1 + n];
    for k := 0 to n
      invariant length == BigEndian(field[..k])
    {
      assert field[..k + 1][..k] == field[..k];
      length := length * 256 + s[at + 1 + k] as int;
    }
    assert field[..n] == field;
    return Some((length, at + 1 + n));
  }

  /** One turn of the loop up to the end of the object, all offsets counted from i. */
  method ScanObject(data: seq<byte>, i: nat) returns (o: Option<Object>)
    requires i < |data|
    ensures o == NextObject(data[i..])
  {
    hide TagEnd, LengthAt;
    var s := data[i..];
    var start := 0;
    while start < |s| && (s[start] == 0x00 || s[start] == 0xFF)
      invariant 0 <= start <= |s| && SkipPadding(s, start) == SkipPadding(s, 0)
    {
      start := start + 1;
    }
    if start >= |s| {
      return None;
    }
    var j := ScanTag(s, start);
    if j >= |s| {
      return None;
    }
    var field := ScanLength(s, j);
    if field == None || field.value.1 + field.value.0 > |s| {
      return None;
    }
    var (length, at) := field.value;
    return Some(Object(s[start..j], s[at..at + length], at + length));
  }

  // ---------------------------------------------------------------- forests

  datatype LengthForm = Short | Long(octets: nat)

  datatype Node = Primitive(tag: seq<byte>, form: LengthForm, content: seq<byte>)
                | Constructed(tag: seq<byte>, form: LengthForm, inside: Forest)

  /** Objects in order, each after some padding, and padding at the end. */
  datatype Forest = End(padding: seq<byte>) | More(padding: seq<byte>, node: Node, rest: Forest)

  predicate ValidTag(tag: seq<byte>) {
    && tag != [] && tag[0] !in {0x00, 0xFF}
    && if tag[0] % 32 == 31 then
         |tag| >= 2 && tag[|tag| - 1] < 0x80 && forall i :: 1 <= i < |tag| - 1 ==> tag[i] >= 0x80
       else |tag| == 1
  }

  /** A length that its form can carry; the long forms need not be minimal. */
  predicate ValidLength(form: LengthForm, n: nat) {
    match form
    case Short => n < 0x80
    case Long(k) => (k == 1 && n < 0x100) || (k == 2 && n < 0x1_0000) || (k == 3 && n < 0x100_0000)
  }

  function Digits256(n: nat, k: nat): (s: seq<byte>)
    ensures |s| == k
  {
    if k == 0 then [] else Digits256(n / 256, k - 1) + [n % 256]
  }

  function EncodeLength(form: LengthForm, n: nat): seq<byte>
    requires ValidLength(form, n)
  {
    match form
    case Short => [n]
    case Long(k) => [0x80 + k] + Digits256(n, k)
  }

  predicate ValidNode(n: Node)
    decreases n, 0
  {
    && ValidTag(n.tag)
    && match n
       case Primitive(tag, form, content) => tag[0] % 64 < 32 && ValidLength(form, |content|)
       case Constructed(tag, form, inside) => tag[0] % 64 >= 32 && ValidForest(inside) && ValidLength(form, |EncodeForest(inside)|)
  }

  predicate ValidForest(f: Forest)
    decreases f, 0
  {
    && AllPadding(f.padding)
    && (f.More? ==> ValidNode(f.node) && ValidForest(f.rest))
  }

  function ValueOf(n: Node): (value: seq<byte>)
    requires ValidNode(n)
    ensures ValidLength(n.form, |value|)
    decreases n, 1
  {
    match n
    case Primitive(_, _, content) => content
    case Constructed(_, _, inside) => EncodeForest(inside)
  }

  function EncodeNode(n: Node): seq<byte>
    requires ValidNode(n)
    decreases n, 2
  {
    n.tag + EncodeLength(n.form, |ValueOf(n)|) + ValueOf(n)
  }

  function EncodeForest(f: Forest): seq<byte>
    requires ValidForest(f)
    decreases f, 1
  {
    match f
    case End(padding) => padding
    case More(padding, node, rest) => padding + EncodeNode(node) + EncodeForest(rest)
  }

  /** The values under `want`, each node before what is inside it. */
  function Preorder(f: Forest, want: byte): seq<seq<byte>>
    requires ValidForest(f)
  {
    match f
    case End(_) => []
    case More(_, node, rest) =>
      assert ValidNode(node);
      (if node.tag == [want] then [ValueOf(node)] else []) +
      (if node.Constructed? then Preorder(node.inside, want) else []) +
      Preorder(rest, want)
  }

  lemma {:induction false} SkipsPadding(s: seq<byte>, i: nat, k: nat)
    requires i <= k <= |s| && forall j :: i <= j < k ==> IsPadding(s[j])
    requires k < |s| ==> !IsPadding(s[k])
    ensures SkipPadding(s, i) == k
    decreases k - i
  {
    if i < k {
      SkipsPadding(s, i + 1, k);
    }
  }

  lemma {:induction false} FindsTagTail(s: seq<byte>, i: nat, last: nat)
    requires i <= last < |s| && s[last] < 0x80 && forall j :: i <= j < last ==> s[j] >= 0x80
    ensures TagTail(s, i) == last + 1
    decreases last - i
  {
    if i < last {
      FindsTagTail(s, i + 1, last);
    }
  }

  lemma {:induction false} DigitsRead(n: nat, k: nat)
    requires k <= 3 && ValidLength(Long(k), n)
    ensures BigEndian(Digits256(n, k)) == n
  {
    ReadBack(n, k);
  }

  function Below(k: nat): nat {
    if k == 0 then 1 else 256 * Below(k - 1)
  }

  lemma {:induction false} ReadBack(n: nat, k: nat)
    requires n < Below(k)
    ensures BigEndian(Digits256(n, k)) == n
  {
    if k > 0 {
      ReadBack(n / 256, k - 1);
      assert Digits256(n, k)[..k - 1] == Digits256(n / 256, k - 1);
    }
  }

  lemma LengthReads(form: LengthForm, n: nat, s: seq<byte>, i: nat)
    requires ValidLength(form, n)
    requires var e := EncodeLength(form, n); i + |e| <= |s| && s[i..i + |e|] == e
    ensures i < |s| && LengthAt(s, i) == Some((n, i + |EncodeLength(form, n)|))
  {
    hide BigEndian, Digits256;
    var e := EncodeLength(form, n);
    assert s[i] == s[i..i + |e|][0];
    match form {
      case Short =>
      case Long(k) =>
        DigitsRead(n, k);
        assert |e| == 1 + k && s[i] == 0x80 + k;
        assert s[i + 1..i + 1 + k] == s[i..i + |e|][1..] == e[1..] == Digits256(n, k);
    }
  }

  lemma TagReads(tag: seq<byte>, s: seq<byte>, start: nat)
    requires ValidTag(tag) && start + |tag| <= |s| && s[start..start + |tag|] == tag
    ensures start < |s| && TagEnd(s, start) == start + |tag|
  {
    forall j | 0 <= j < |tag| ensures s[start + j] == tag[j] {
      assert s[start + j] == s[start..start + |tag|][j];
    }
    if TagGoesOn(tag[0]) {
      FindsTagTail(s, start + 1, start + |tag| - 1);
    }
  }

  /** The scanner takes an encoded object, padding and all, exactly as it was put. */
  lemma NodeReads(padding: seq<byte>, tag: seq<byte>, form: LengthForm, value: seq<byte>, more: seq<byte>)
    requires AllPadding(padding) && ValidTag(tag) && ValidLength(form, |value|)
    ensures var head := padding + (tag + EncodeLength(form, |value|) + value);
            NextObject(head + more) == Some(Object(tag, value, |head|)) && (head + more)[|head|..] == more
  {
    hide ValidTag, ValidLength, EncodeLength, TagEnd, LengthAt;
    var e := EncodeLength(form, |value|);
    var s := padding + (tag + e + value) + more;
    var start, i := |padding|, |padding| + |tag|;
    assert s[start..i] == tag && s[i..i + |e|] == e;
    TagStarts(tag);
    assert s[start] == tag[0];
    SkipsPadding(s, 0, start);
    TagReads(tag, s, start);
    LengthReads(form, |value|, s, i);
    assert s[i + |e|..i + |e| + |value|] == value;
  }

  lemma TagStarts(tag: seq<byte>)
    requires ValidTag(tag)
    ensures tag != [] && !IsPadding(tag[0])
  {
  }

  lemma OnlyPadding(s: seq<byte>)
    requires AllPadding(s)
    ensures NextObject(s) == None
  {
    SkipsPadding(s, 0, |s|);
  }

  lemma ConstructedBit(b: byte)
    ensures IsConstructed(b) <==> b % 64 >= 32
  {
  }

  /** Complete and in order: on the encoding of any forest, with any padding and any valid length
      forms, the scanner collects exactly the pre-order list. */
  lemma {:induction false} CollectsForest(f: Forest, want: byte)
    requires ValidForest(f)
    ensures Collected(EncodeForest(f), want) == Preorder(f, want)
  {
    hide NextObject, ValidTag, ValidLength, EncodeLength, IsConstructed, AllPadding;
    match f {
      case End(padding) =>
        OnlyPadding(padding);
      case More(padding, node, rest) =>
        NodeReads(padding, node.tag, node.form, ValueOf(node), EncodeForest(rest));
        CollectsForest(rest, want);
        ConstructedBit(node.tag[0]);
        if node.Constructed? {
          CollectsForest(node.inside, want);
        }
    }
  }

  // ---------------------------------------------------------------- and nothing else is taken

  lemma {:induction false} DigitsBack(s: seq<byte>)
    ensures BigEndian(s) < Below(|s|) && Digits256(BigEndian(s), |s|) == s
  {
    if s != [] {
      DigitsBack(s[..|s| - 1]);
      assert s == s[..|s| - 1] + [s[|s| - 1]];
    }
  }

  lemma {:induction false} TagTailIs(s: seq<byte>, i: nat)
    requires i <= |s| && TagTail(s, i) < |s|
    ensures var j := TagTail(s, i); i < j && s[j - 1] < 0x80 && forall k :: i <= k < j - 1 ==> s[k] >= 0x80
    decreases |s| - i
  {
    if s[i] >= 0x80 { TagTailIs(s, i + 1); }
  }

  lemma {:induction false} PaddingIs(s: seq<byte>, i: nat)
    requires i <= |s|
    ensures var j := SkipPadding(s, i); AllPadding(s[i..j]) && (j < |s| ==> s[j] !in {0x00, 0xFF})
    decreases |s| - i
  {
    if i < |s| && IsPadding(s[i]) {
      PaddingIs(s, i + 1);
      var j := SkipPadding(s, i);
      assert s[i..j] == [s[i]] + s[i + 1..j];
    }
  }

  lemma {:induction false} TagTaken(s: seq<byte>, start: nat)
    requires start < |s| && s[start] !in {0x00, 0xFF} && TagEnd(s, start) < |s|
    ensures ValidTag(s[start..TagEnd(s, start)])
  {
    if TagGoesOn(s[start]) { TagTailIs(s, start + 1); }
  }

  lemma {:induction false} LongTaken(s: seq<byte>, i: nat, k: nat)
    requires 1 <= k <= 3 && i + 1 + k <= |s| && s[i] as int == 0x80 + k
    ensures var n := BigEndian(s[i + 1..i + 1 + k]); ValidLength(Long(k), n) && s[i..i + 1 + k] == EncodeLength(Long(k), n)
  {
    hide BigEndian, Digits256, Below;
    var digits := s[i + 1..i + 1 + k];
    DigitsBack(digits);
    BelowThree();
    assert s[i..i + 1 + k] == [s[i]] + digits;
  }

  lemma {:induction false} LengthTaken(s: seq<byte>, i: nat) returns (form: LengthForm)
    requires i < |s| && LengthAt(s, i).Some?
    ensures var (n, at) := LengthAt(s, i).value; ValidLength(form, n) && s[i..at] == EncodeLength(form, n)
  {
    if s[i] < 0x80 {
      form := Short;
    } else {
      hide BigEndian, EncodeLength, ValidLength;
      form := Long((s[i] - 0x80) as nat);
      LongTaken(s, i, form.octets);
    }
  }

  lemma BelowThree()
    ensures Below(1) == 0x100 && Below(2) == 0x1_0000 && Below(3) == 0x100_0000
  {
  }

  /** What is taken is padding and then an encoded object: a tag that ends, a length of up to three octets, a
      value that is all there. So anything else ends the scan. */
  lemma {:induction false} TakenIsObject(s: seq<byte>) returns (padding: seq<byte>, form: LengthForm)
    requires NextObject(s).Some?
    ensures var o := NextObject(s).value;
            && AllPadding(padding) && ValidTag(o.tag) && ValidLength(form, |o.value|)
            && s[..o.end] == padding + (o.tag + EncodeLength(form, |o.value|) + o.value)
  {
    hide LengthAt, TagEnd, SkipPadding, EncodeLength, ValidLength, ValidTag, AllPadding;
    var start := SkipPadding(s, 0);
    PaddingIs(s, 0);
    padding := s[..start];
    var i := TagEnd(s, start);
    TagTaken(s, start);
    form := LengthTaken(s, i);
    var (n, at) := LengthAt(s, i).value;
    Parts(s, start, i, at, at + n);
  }

  lemma Parts(s: seq<byte>, a: nat, b: nat, c: nat, d: nat)
    requires a <= b <= c <= d <= |s|
    ensures s[..a] == s[0..a] && s[..d] == s[..a] + (s[a..b] + s[b..c] + s[c..d])
  {
  }
}
