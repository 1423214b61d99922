/** Documents as trees, their encoding, what they mean, and that reading the encoding gives it. */
module WbxmlRoundTrip {
  import opened Bytes
  import opened WbxmlHeader
  import opened WbxmlReader

  datatype AttrItem = StartToken(token: byte) | ValueToken(token: byte) | InlineValue(text: seq<byte>)
                    | TableValue(offset: nat, width: nat) | OpaqueValue(data: seq<byte>, width: nat) | AttrPage(page: byte)

  /** An element with or without an attribute list and a content. */
  datatype Elem = Elem(tag: byte, hasAttrs: bool, attrs: seq<AttrItem>, hasContent: bool, content: Items)

  datatype Items = Done | More(item: Item, rest: Items)

  datatype Item = Text(text: seq<byte>) | TableText(offset: nat, width: nat) | OpaqueItem(data: seq<byte>, width: nat)
                | SetPage(page: byte) | Child(elem: Elem)

  // ---------------------------------------------------------------- encoding

  predicate ValidInteger(n: nat, width: nat) {
    1 <= width <= 5 && n < Pow128(width) && n < U32
  }

  predicate IsGlobal(b: byte) {
    b == SWITCH_PAGE || b == END_TOKEN || b == STR_I || b == STR_T || b == OPAQUE_TOKEN
  }

  predicate ValidString(s: seq<byte>) { 0 !in s }

  function EncodeString(text: seq<byte>): seq<byte> { [STR_I] + (text + [0]) }

  function EncodeRef(offset: nat, width: nat): seq<byte>
    requires width > 0
  {
    [STR_T] + Encoded(offset, width)
  }

  function EncodeOpaque(data: seq<byte>, width: nat): seq<byte>
    requires width > 0
  {
    [OPAQUE_TOKEN] + (Encoded(|data|, width) + data)
  }

  /** What an item does to the attributes read so far, and to the page. */
  function Apply(env: Env, item: AttrItem, page: byte, a: Attrs): (r: (byte, Attrs)) {
    match item
    case StartToken(b) => (page, if IsStart(env, page, b) then StartAttr(env, page, b, a) else a)
    case ValueToken(b) => (page, if IsValue(env, page, b) then Append(a, env.tables.valueOf(page, b).value) else a)
    case InlineValue(text) => (page, Append(a, Chars(text)))
    case TableValue(offset, _) => (page, Append(a, FromTable(env.strings, offset)))
    case OpaqueValue(_, _) => (page, a)
    case AttrPage(p) => (p, a)
  }

  /** A token is valid where it is in the table meant; a start token that is also a value token is so
      only while no attribute is open, because there the reader takes it for the value. */
  predicate ValidAttrItem(env: Env, item: AttrItem, page: byte, a: Attrs) {
    match item
    case StartToken(b) => !IsGlobal(b) && IsStart(env, page, b) && (a.name == "" || !IsValue(env, page, b))
    case ValueToken(b) => !IsGlobal(b) && IsValue(env, page, b) && (a.name != "" || !IsStart(env, page, b))
    case InlineValue(text) => ValidString(text)
    case TableValue(offset, width) => ValidInteger(offset, width)
    case OpaqueValue(data, width) => ValidInteger(|data|, width)
    case AttrPage(_) => true
  }

  function EncodeAttrItem(item: AttrItem): (s: seq<byte>) {
    match item
    case StartToken(b) => [b]
    case ValueToken(b) => [b]
    case InlineValue(text) => EncodeString(text)
    case TableValue(offset, width) => EncodeRef(offset, if width == 0 then 1 else width)
    case OpaqueValue(data, width) => EncodeOpaque(data, if width == 0 then 1 else width)
    case AttrPage(p) => [SWITCH_PAGE, p]
  }

  function EncodeAttrs(items: seq<AttrItem>): seq<byte> {
    if items == [] then [END_TOKEN] else EncodeAttrItem(items[0]) + EncodeAttrs(items[1..])
  }

  predicate ValidAttrs(env: Env, items: seq<AttrItem>, page: byte, a: Attrs) {
    items != [] ==>
      && ValidAttrItem(env, items[0], page, a)
      && var (page', a') := Apply(env, items[0], page, a);
         ValidAttrs(env, items[1..], page', a')
  }

  /** What an attribute list means: the attributes and the page it leaves. */
  function AttrsMean(env: Env, items: seq<AttrItem>, page: byte, a: Attrs): (r: (map<string, string>, byte)) {
    if items == [] then (Flush(env, a).done, page)
    else
      var (page', a') := Apply(env, items[0], page, a);
      AttrsMean(env, items[1..], page', a')
  }

  function TagOctet(e: Elem): byte {
    e.tag % 0x40 + (if e.hasContent then 0x40 else 0) + (if e.hasAttrs then 0x80 else 0)
  }

  function EncodeElem(e: Elem): (s: seq<byte>)
    decreases e, 0
  {
    [TagOctet(e)] + ((if e.hasAttrs then EncodeAttrs(e.attrs) else []) + (if e.hasContent then EncodeItems(e.content) else []))
  }

  function EncodeItems(c: Items): seq<byte>
    decreases c, 0
  {
    match c
    case Done => [END_TOKEN]
    case More(item, rest) => EncodeItem(item) + EncodeItems(rest)
  }

  function EncodeItem(item: Item): seq<byte>
    decreases item, 1
  {
    match item
    case Text(text) => EncodeString(text)
    case TableText(offset, width) => EncodeRef(offset, if width == 0 then 1 else width)
    case OpaqueItem(data, width) => EncodeOpaque(data, if width == 0 then 1 else width)
    case SetPage(p) => [SWITCH_PAGE, p]
    case Child(e) => EncodeElem(e)
  }

  // ---------------------------------------------------------------- meaning

  datatype Pages = Pages(tag: byte, attr: byte)

  /** What an element means in the pages it is met in, and the pages it leaves. */
  function ElemMeans(env: Env, e: Elem, p: Pages): (r: (Outcome, Pages))
    ensures r.0 != Failed
    decreases e, 0
  {
    var (attrs, attrPage) := if e.hasAttrs then AttrsMean(env, e.attrs, p.attr, NO_ATTRS) else (map[], p.attr);
    var q := Pages(p.tag, attrPage);
    var (text, children, end) := if e.hasContent then ItemsMean(env, e.content, q, "", []) else ("", [], q);
    (Built(env, env.tables.tagOf(p.tag, e.tag % 0x40), attrs, text, children), end)
  }

  function ItemsMean(env: Env, c: Items, p: Pages, text: string, children: seq<Node>): (r: (string, seq<Node>, Pages))
    decreases c, 0
  {
    match c
    case Done => (text, children, p)
    case More(item, rest) =>
      var (text', children', p') := ItemMeans(env, item, p, text, children);
      ItemsMean(env, rest, p', text', children')
  }

  function ItemMeans(env: Env, item: Item, p: Pages, text: string, children: seq<Node>): (r: (string, seq<Node>, Pages))
    decreases item, 1
  {
    match item
    case Text(t) => (text + Chars(t), children, p)
    case TableText(offset, _) => (text + FromTable(env.strings, offset), children, p)
    case OpaqueItem(_, _) => (text, children, p)
    case SetPage(q) => (text, children, p.(tag := q))
    case Child(e) =>
      var (o, q) := ElemMeans(env, e, p);
      (text, if o.Got? then children + [o.node] else children, q)
  }

  /** Tags from 5 up, as the standard has them: below are the global tokens. */
  predicate ValidElem(env: Env, e: Elem, p: Pages)
    decreases e, 0
  {
    && 5 <= e.tag < 0x40
    && (e.hasAttrs ==> ValidAttrs(env, e.attrs, p.attr, NO_ATTRS))
    && (e.hasContent ==> ValidItems(env, e.content, Pages(p.tag, if e.hasAttrs then AttrsMean(env, e.attrs, p.attr, NO_ATTRS).1 else p.attr)))
  }

  predicate ValidItems(env: Env, c: Items, p: Pages)
    decreases c, 0
  {
    c.More? ==> ValidItem(env, c.item, p) && ValidItems(env, c.rest, ItemMeans(env, c.item, p, "", []).2)
  }

  predicate ValidItem(env: Env, item: Item, p: Pages)
    decreases item, 1
  {
    match item
    case Text(t) => ValidString(t)
    case TableText(offset, width) => ValidInteger(offset, width)
    case OpaqueItem(data, width) => ValidInteger(|data|, width)
    case SetPage(_) => true
    case Child(e) => ValidElem(env, e, p)
  }

  // ---------------------------------------------------------------- the pieces are read back

  lemma {:induction false} UpToNulStops(text: seq<byte>, more: seq<byte>)
    requires ValidString(text)
    ensures UpToNul(text + ([0] + more)) == text
  {
    var s := text + ([0] + more);
    if text != [] {
      UpToNulStops(text[1..], more);
      assert s[1..] == text[1..] + ([0] + more);
      assert text == [text[0]] + text[1..];
    }
  }

  lemma StringReads(text: seq<byte>, more: seq<byte>)
    requires ValidString(text)
    ensures var s := EncodeString(text) + more;
            s != [] && s[0] == STR_I && Inline(s[1..]) == (Chars(text), more)
  {
    var s := EncodeString(text) + more;
    assert s[1..] == text + ([0] + more);
    UpToNulStops(text, more);
    assert s[1..][|text| + 1..] == more;
  }

  lemma RefReads(offset: nat, width: nat, more: seq<byte>)
    requires ValidInteger(offset, width)
    ensures var s := EncodeRef(offset, width) + more;
            s != [] && s[0] == STR_T && Read(s[1..]) == Value(offset, more)
  {
    hide Read, Encoded;
    var s := EncodeRef(offset, width) + more;
    assert s[1..] == Encoded(offset, width) + more;
    ReadsEncoded(offset, width, more);
  }

  lemma OpaqueReads(data: seq<byte>, width: nat, more: seq<byte>)
    requires ValidInteger(|data|, width)
    ensures var s := EncodeOpaque(data, width) + more;
            s != [] && s[0] == OPAQUE_TOKEN && AfterOpaque(s[1..]) == more
  {
    hide Read, Encoded;
    var s := EncodeOpaque(data, width) + more;
    assert s[1..] == Encoded(|data|, width) + (data + more);
    ReadsEncoded(|data|, width, data + more);
    assert (data + more)[|data|..] == more;
  }

  /** One item: the reader takes it and is where the item's meaning says. */
  lemma {:induction false} AttrItemReads(env: Env, item: AttrItem, page: byte, a: Attrs, more: seq<byte>)
    requires ValidAttrItem(env, item, page, a)
    ensures var (page', a') := Apply(env, item, page, a);
            Attributes(env, EncodeAttrItem(item) + more, page, a) == Attributes(env, more, page', a')
  {
    hide Read, Encoded, Inline, FromTable, AfterOpaque, IsStart, IsValue, StartAttr, ValidString, Pow128;
    hide EncodeString, EncodeRef, EncodeOpaque;
    var s := EncodeAttrItem(item) + more;
    match item {
      case StartToken(b) => assert s[0] == b && s[1..] == more;
      case ValueToken(b) => assert s[0] == b && s[1..] == more;
      case InlineValue(text) => StringReads(text, more);
      case TableValue(offset, width) => RefReads(offset, width, more);
      case OpaqueValue(data, width) => OpaqueReads(data, width, more);
      case AttrPage(p) => assert s[0] == SWITCH_PAGE && s[1..] == [p] + more && s[1..][1..] == more;
    }
  }

  lemma {:induction false} AttrsRead(env: Env, items: seq<AttrItem>, page: byte, a: Attrs, more: seq<byte>)
    requires ValidAttrs(env, items, page, a)
    ensures var (attrs, page') := AttrsMean(env, items, page, a);
            Attributes(env, EncodeAttrs(items) + more, page, a) == (attrs, more, page')
  {
    if items == [] {
      var s := EncodeAttrs(items) + more;
      assert s[0] == END_TOKEN && s[1..] == more;
    } else {
      hide Attributes, EncodeAttrItem, ValidAttrItem, Apply;
      var (page', a') := Apply(env, items[0], page, a);
      var tail := EncodeAttrs(items[1..]) + more;
      assert EncodeAttrs(items) + more == EncodeAttrItem(items[0]) + tail;
      AttrItemReads(env, items[0], page, a, tail);
      AttrsRead(env, items[1..], page', a', more);
    }
  }

  lemma TagSplits(e: Elem)
    requires 5 <= e.tag < 0x40
    ensures var b := TagOctet(e);
            && b % 0x40 == e.tag && (b >= 0x80 <==> e.hasAttrs) && (b / 0x40 % 2 == 1 <==> e.hasContent)
            && !IsGlobal(b)
  {
  }

  lemma {:induction false} ElemReads(env: Env, e: Elem, p: Pages, more: seq<byte>)
    requires ValidElem(env, e, p)
    ensures var (o, q) := ElemMeans(env, e, p);
            Element(env, In(EncodeElem(e) + more, p.tag, p.attr)) == (o, In(more, q.tag, q.attr))
    decreases e, 0
  {
    hide Attributes, EncodeAttrs, EncodeItems, Content, Built, AttrsMean, ItemsMean, ValidAttrs, ValidItems, TagOctet;
    TagSplits(e);
    var s := EncodeElem(e) + more;
    var content := (if e.hasContent then EncodeItems(e.content) else []) + more;
    var rest := (if e.hasAttrs then EncodeAttrs(e.attrs) else []) + content;
    assert s[0] == TagOctet(e) && s[1..] == rest;
    var attrPage := p.attr;
    if e.hasAttrs {
      AttrsRead(env, e.attrs, p.attr, NO_ATTRS, content);
      attrPage := AttrsMean(env, e.attrs, p.attr, NO_ATTRS).1;
    } else {
      assert rest == content;
    }
    if e.hasContent {
      ItemsRead(env, e.content, Pages(p.tag, attrPage), "", [], more);
    } else {
      assert content == more;
    }
  }

  lemma {:induction false} ItemsRead(env: Env, c: Items, p: Pages, text: string, children: seq<Node>, more: seq<byte>)
    requires ValidItems(env, c, p)
    ensures var (text', children', q) := ItemsMean(env, c, p, text, children);
            Content(env, In(EncodeItems(c) + more, p.tag, p.attr), text, children) == (text', children', In(more, q.tag, q.attr))
    decreases c, 0
  {
    match c {
      case Done =>
        var s := EncodeItems(c) + more;
        assert s[0] == END_TOKEN && s[1..] == more;
      case More(item, rest) =>
        hide Content, EncodeItem, ItemMeans, ValidItem;
        var tail := EncodeItems(rest) + more;
        assert EncodeItems(c) + more == EncodeItem(item) + tail;
        ItemReads(env, item, p, text, children, tail);
        PagesOnly(env, item, p, text, children);
        var (text', children', q) := ItemMeans(env, item, p, text, children);
        ItemsRead(env, rest, q, text', children', more);
    }
  }

  lemma PagesOnly(env: Env, item: Item, p: Pages, text: string, children: seq<Node>)
    ensures ItemMeans(env, item, p, text, children).2 == ItemMeans(env, item, p, "", []).2
  {
  }

  lemma {:induction false} ItemReads(env: Env, item: Item, p: Pages, text: string, children: seq<Node>, more: seq<byte>)
    requires ValidItem(env, item, p)
    ensures var (text', children', q) := ItemMeans(env, item, p, text, children);
            Content(env, In(EncodeItem(item) + more, p.tag, p.attr), text, children)
            == Content(env, In(more, q.tag, q.attr), text', children')
    decreases item, 1
  {
    hide Read, Encoded, Inline, FromTable, AfterOpaque, ValidString, Pow128, EncodeString, EncodeRef, EncodeOpaque;
    hide ElemMeans, EncodeElem, Element, ValidElem;
    var s := EncodeItem(item) + more;
    match item {
      case Text(t) => StringReads(t, more);
      case TableText(offset, width) => RefReads(offset, width, more);
      case OpaqueItem(data, width) => OpaqueReads(data, width, more);
      case SetPage(q) => assert s[0] == SWITCH_PAGE && s[1..] == [q] + more && s[1..][1..] == more;
      case Child(e) =>
        ElemReads(env, e, p, more);
        ElemStarts(env, e, p, more);
    }
  }

  lemma {:induction false} ElemStarts(env: Env, e: Elem, p: Pages, more: seq<byte>)
    requires ValidElem(env, e, p)
    ensures var s := EncodeElem(e) + more; s != [] && !IsGlobal(s[0])
  {
    hide EncodeAttrs, EncodeItems;
    TagSplits(e);
  }

  // ---------------------------------------------------------------- whole documents

  /** A top-level element after some switches of the tag page. */
  datatype Top = Top(switches: seq<byte>, elem: Elem)

  function EncodeSwitches(pages: seq<byte>): seq<byte> {
    if pages == [] then [] else [SWITCH_PAGE, pages[0]] + EncodeSwitches(pages[1..])
  }

  function PageAfter(pages: seq<byte>, page: byte): byte {
    if pages == [] then page else pages[|pages| - 1]
  }

  function EncodeTops(tops: seq<Top>): seq<byte> {
    if tops == [] then []
    else EncodeSwitches(tops[0].switches) + (EncodeElem(tops[0].elem) + EncodeTops(tops[1..]))
  }

  function TopMeans(env: Env, t: Top, p: Pages): (r: (Outcome, Pages)) {
    ElemMeans(env, t.elem, p.(tag := PageAfter(t.switches, p.tag)))
  }

  function TopsMean(env: Env, tops: seq<Top>, p: Pages, nodes: seq<Node>): seq<Node> {
    if tops == [] then nodes
    else
      var (o, q) := TopMeans(env, tops[0], p);
      TopsMean(env, tops[1..], q, if o.Got? then nodes + [o.node] else nodes)
  }

  predicate ValidTops(env: Env, tops: seq<Top>, p: Pages) {
    tops != [] ==>
      && ValidElem(env, tops[0].elem, p.(tag := PageAfter(tops[0].switches, p.tag)))
      && ValidTops(env, tops[1..], TopMeans(env, tops[0], p).1)
  }

  lemma {:induction false} SwitchesRead(env: Env, pages: seq<byte>, p: Pages, rest: seq<byte>)
    requires rest != []
    ensures Element(env, In(EncodeSwitches(pages) + rest, p.tag, p.attr)) ==
            Element(env, In(rest, PageAfter(pages, p.tag), p.attr))
  {
    var s := EncodeSwitches(pages) + rest;
    if pages == [] {
      assert s == rest;
    } else {
      SwitchesRead(env, pages[1..], Pages(pages[0], p.attr), rest);
      assert s[0] == SWITCH_PAGE && s[1..][0] == pages[0] && s[1..][1..] == EncodeSwitches(pages[1..]) + rest;
    }
  }

  lemma {:induction false} TopReads(env: Env, t: Top, p: Pages, more: seq<byte>)
    requires ValidElem(env, t.elem, p.(tag := PageAfter(t.switches, p.tag)))
    ensures var (o, q) := TopMeans(env, t, p);
            var s := EncodeSwitches(t.switches) + (EncodeElem(t.elem) + more);
            s != [] && Element(env, In(s, p.tag, p.attr)) == (o, In(more, q.tag, q.attr))
  {
    hide Element, ElemMeans, ValidElem, EncodeElem;
    var at := p.(tag := PageAfter(t.switches, p.tag));
    var rest := EncodeElem(t.elem) + more;
    ElemStarts(env, t.elem, at, more);
    SwitchesRead(env, t.switches, p, rest);
    ElemReads(env, t.elem, at, more);
  }

  /** Where the reader of the top level stops: at the end of the data, at a stray end token, or at a switch
      without its page, behind any switches of the tag page. */
  predicate StopsAt(rest: seq<byte>) {
    || rest == [] || rest[0] == END_TOKEN
    || (rest[0] == SWITCH_PAGE && (|rest| == 1 || StopsAt(rest[2..])))
  }

  /** An element is refused exactly there. */
  lemma {:induction false} RefusedIff(env: Env, i: In)
    ensures Element(env, i).0 == Failed <==> StopsAt(i.rest)
    decreases |i.rest|
  {
    hide Attributes, Content, Built;
    if i.rest != [] && i.rest[0] == SWITCH_PAGE && |i.rest| > 1 {
      assert i.rest[1..][1..] == i.rest[2..];
      RefusedIff(env, In(i.rest[2..], i.rest[1], i.attrPage));
    }
  }

  lemma {:induction false} TopsRead(env: Env, tops: seq<Top>, p: Pages, nodes: seq<Node>, tail: seq<byte>)
    requires ValidTops(env, tops, p) && StopsAt(tail)
    ensures Elements(env, In(EncodeTops(tops) + tail, p.tag, p.attr), nodes) == TopsMean(env, tops, p, nodes)
  {
    if tops == [] {
      hide Element, StopsAt;
      assert EncodeTops(tops) + tail == tail;
      RefusedIff(env, In(tail, p.tag, p.attr));
    } else {
      hide Element, ElemMeans, ValidElem, EncodeElem, EncodeSwitches, StopsAt;
      var more := EncodeTops(tops[1..]) + tail;
      assert EncodeTops(tops) + tail == EncodeSwitches(tops[0].switches) + (EncodeElem(tops[0].elem) + more);
      TopReads(env, tops[0], p, more);
      var (o, q) := TopMeans(env, tops[0], p);
      TopsRead(env, tops[1..], q, if o.Got? then nodes + [o.node] else nodes, tail);
    }
  }

  /** Decoding inverts encoding, for every document: any tree of elements, attribute lists, strings,
      table references, opaque data and page switches, integers in any width. What follows where the
      reader stops takes nothing back. Such a document of version 1 to 3 is also found where it starts. */
  lemma DecodeInvertsEncode(
      tables: Tables, version: byte, charset: nat, strings: seq<byte>, tops: seq<Top>, tail: seq<byte>, k1: nat, k2: nat, k3: nat)
    requires 1 <= k1 <= 5 && 1 <= k2 <= 5 && 1 <= k3 <= 5
    requires charset < Pow128(k2) && |strings| < Pow128(k3) && |strings| < U32
    requires ValidTops(Env(strings, tables), tops, Pages(0, 0)) && StopsAt(tail)
    ensures var body := strings + (EncodeTops(tops) + tail);
            var data := [version] + (Encoded(PUBLIC_ID, k1) + (Encoded(charset, k2) + (Encoded(|strings|, k3) + body)));
            var nodes := TopsMean(Env(strings, tables), tops, Pages(0, 0), []);
            && Decode(data, tables) == (if nodes == [] then NothingDecoded else Config(version, nodes))
            && (1 <= version <= 3 ==> IsHeader(data))
  {
    hide HeaderStage, Encoded, Pow128, Elements, TopsMean, ValidTops, EncodeTops, StopsAt;
    HeaderReadsBack(version, charset, strings, EncodeTops(tops) + tail, k1, k2, k3);
    TopsRead(Env(strings, tables), tops, Pages(0, 0), [], tail);
  }
}
