/** What a provisioning document says, in terms of its settings and groups of settings, and that decoding it
    gives that. */
module WbxmlMeaning {
  import opened Wrappers
  import opened Bytes
  import opened Text
  import opened WbxmlHeader
  import opened WbxmlReader
  import opened WbxmlRoundTrip
  import opened WbxmlTables

  // ---------------------------------------------------------------- attributes

  /** A piece of a value: letters in place, a value token, or a string of the document's table. */
  datatype Piece = Letters(text: seq<byte>) | Coded(token: byte) | Stored(offset: nat, width: nat)

  /** A start token of a page and what follows it; the page is switched to, or is the page already. */
  datatype Attribute = Attribute(switches: bool, page: byte, start: byte, pieces: seq<Piece>)

  predicate ValidPiece(env: Env, page: byte, piece: Piece) {
    match piece
    case Letters(text) => ValidString(text)
    case Coded(b) => !IsGlobal(b) && IsValue(env, page, b)
    case Stored(offset, width) => ValidInteger(offset, width)
  }

  /** A token that can also be a value may start an attribute only where none is open. */
  predicate ValidAttributes(env: Env, attrs: seq<Attribute>, page: byte, open: bool) {
    attrs != [] ==>
      var t := attrs[0];
      && (t.switches || t.page == page)
      && !IsGlobal(t.start) && IsStart(env, t.page, t.start) && (open ==> !IsValue(env, t.page, t.start))
      && (forall i :: 0 <= i < |t.pieces| ==> ValidPiece(env, t.page, t.pieces[i]))
      && ValidAttributes(env, attrs[1..], t.page, true)
  }

  function PageAfterAll(attrs: seq<Attribute>, page: byte): byte {
    if attrs == [] then page else attrs[|attrs| - 1].page
  }

  function Spelled(env: Env, page: byte, piece: Piece): string {
    match piece
    case Letters(text) => Chars(text)
    case Coded(b) => if IsValue(env, page, b) then env.tables.valueOf(page, b).value else ""
    case Stored(offset, _) => FromTable(env.strings, offset)
  }

  function Spell(env: Env, page: byte, pieces: seq<Piece>): string {
    if pieces == [] then "" else Spelled(env, page, pieces[0]) + Spell(env, page, pieces[1..])
  }

  /** The name of an attribute, and its value: what the start token begins and the pieces go on with, trimmed. */
  function AttrName(env: Env, t: Attribute): string {
    if IsStart(env, t.page, t.start) then env.tables.startOf(t.page, t.start).value.0 else ""
  }

  function AttrValue(env: Env, t: Attribute): string {
    env.tables.trim((if IsStart(env, t.page, t.start) then env.tables.startOf(t.page, t.start).value.1 else "")
                    + Spell(env, t.page, t.pieces))
  }

  /** The value of the last attribute of that name. */
  function LastOf(env: Env, attrs: seq<Attribute>, key: string): Option<string> {
    if attrs == [] then None
    else
      var later := LastOf(env, attrs[1..], key);
      if later.Some? then later else if AttrName(env, attrs[0]) == key then Some(AttrValue(env, attrs[0])) else None
  }

  function OrEmpty(s: Option<string>): string {
    if s.Some? then s.value else ""
  }

  // ---------------------------------------------------------------- documents

  /** A group of settings: attributes, of which "type" counts, and entries. */
  datatype Group = Group(attrs: seq<Attribute>, entries: Entries)

  /** Settings with their attributes and the text they hold, groups, and switches of the tag page. */
  datatype Entries = NoMore | Setting(attrs: seq<Attribute>, text: seq<byte>, rest: Entries)
                   | Inner(group: Group, rest: Entries) | TagPage(page: byte, rest: Entries)

  /** At the top, behind switches of the tag page, a group or a whole provisioning document. */
  datatype Part = Loose(switches: seq<byte>, group: Group) | Wrapped(switches: seq<byte>, entries: Entries)

  function AfterGroup(g: Group, p: Pages): Pages
    decreases g
  {
    AfterEntries(g.entries, Pages(p.tag, PageAfterAll(g.attrs, p.attr)))
  }

  function AfterEntries(e: Entries, p: Pages): Pages
    decreases e
  {
    match e
    case NoMore => p
    case Setting(attrs, _, rest) => AfterEntries(rest, Pages(p.tag, PageAfterAll(attrs, p.attr)))
    case Inner(g, rest) => AfterEntries(rest, AfterGroup(g, p))
    case TagPage(page, rest) => AfterEntries(rest, Pages(page, p.attr))
  }

  function AfterPart(part: Part, p: Pages): Pages {
    var q := Pages(PageAfter(part.switches, p.tag), p.attr);
    match part
    case Loose(_, g) => AfterGroup(g, q)
    case Wrapped(_, e) => AfterEntries(e, q)
  }

  predicate ValidGroup(env: Env, g: Group, p: Pages)
    decreases g
  {
    && p.tag <= 1 && ValidAttributes(env, g.attrs, p.attr, false)
    && ValidEntries(env, g.entries, Pages(p.tag, PageAfterAll(g.attrs, p.attr)))
  }

  predicate ValidEntries(env: Env, e: Entries, p: Pages)
    decreases e
  {
    match e
    case NoMore => true
    case Setting(attrs, text, rest) =>
      && p.tag <= 1 && ValidAttributes(env, attrs, p.attr, false) && ValidString(text)
      && ValidEntries(env, rest, Pages(p.tag, PageAfterAll(attrs, p.attr)))
    case Inner(g, rest) => ValidGroup(env, g, p) && ValidEntries(env, rest, AfterGroup(g, p))
    case TagPage(page, rest) => ValidEntries(env, rest, Pages(page, p.attr))
  }

  predicate ValidPart(env: Env, part: Part, p: Pages) {
    var q := Pages(PageAfter(part.switches, p.tag), p.attr);
    match part
    case Loose(_, g) => ValidGroup(env, g, q)
    case Wrapped(_, e) => q.tag == 0 && ValidEntries(env, e, q)
  }

  predicate ValidParts(env: Env, parts: seq<Part>, p: Pages) {
    parts != [] ==> ValidPart(env, parts[0], p) && ValidParts(env, parts[1..], AfterPart(parts[0], p))
  }

  // ---------------------------------------------------------------- what they say

  /** A setting's name is its attribute "name", or its text if that is empty. */
  function NameOf(env: Env, attrs: seq<Attribute>, text: seq<byte>): string {
    var name := OrEmpty(LastOf(env, attrs, "name"));
    if name == "" then Chars(text) else name
  }

  function ValueOfSetting(env: Env, attrs: seq<Attribute>): string {
    OrEmpty(LastOf(env, attrs, "value"))
  }

  /** The value of the last setting of that name among the entries; blank names do not count. */
  function LastSetting(env: Env, e: Entries, name: string): Option<string>
    decreases e
  {
    match e
    case NoMore => None
    case Setting(attrs, text, rest) =>
      var later := LastSetting(env, rest, name);
      if later.Some? then later
      else if NameOf(env, attrs, text) == name && env.tables.trim(name) != "" then Some(ValueOfSetting(env, attrs))
      else None
    case Inner(_, rest) => LastSetting(env, rest, name)
    case TagPage(_, rest) => LastSetting(env, rest, name)
  }

  /** A node says what a group says: its type, exactly its settings, and its inner groups in order. */
  ghost predicate Says(env: Env, n: Node, g: Group)
    decreases g
  {
    && n.typ == OrEmpty(LastOf(env, g.attrs, "type"))
    && (forall name :: name in n.params <==> LastSetting(env, g.entries, name).Some?)
    && (forall name :: name in n.params ==> LastSetting(env, g.entries, name) == Some(n.params[name]))
    && SayInner(env, n.subs, g.entries)
  }

  ghost predicate SayInner(env: Env, nodes: seq<Node>, e: Entries)
    decreases e
  {
    match e
    case NoMore => nodes == []
    case Setting(_, _, rest) => SayInner(env, nodes, rest)
    case Inner(g, rest) => nodes != [] && Says(env, nodes[0], g) && SayInner(env, nodes[1..], rest)
    case TagPage(_, rest) => SayInner(env, nodes, rest)
  }

  /** Under the document itself a setting stays a node of its own. */
  ghost predicate SayEntries(env: Env, nodes: seq<Node>, e: Entries)
    decreases e
  {
    match e
    case NoMore => nodes == []
    case Setting(attrs, text, rest) =>
      var name := NameOf(env, attrs, text);
      if env.tables.trim(name) == "" then SayEntries(env, nodes, rest)
      else
        && nodes != [] && nodes[0] == Node("__parm__", map[name := ValueOfSetting(env, attrs)], [])
        && SayEntries(env, nodes[1..], rest)
    case Inner(g, rest) => nodes != [] && Says(env, nodes[0], g) && SayEntries(env, nodes[1..], rest)
    case TagPage(_, rest) => SayEntries(env, nodes, rest)
  }

  /** The nodes of a part: one, or none for a document without any entry. */
  ghost predicate SayPart(env: Env, mine: seq<Node>, part: Part) {
    match part
    case Loose(_, g) => |mine| == 1 && Says(env, mine[0], g)
    case Wrapped(_, e) =>
      if SayEntries(env, [], e) then mine == []
      else |mine| == 1 && mine[0].typ == "wap-provisioningdoc" && mine[0].params == map[] && SayEntries(env, mine[0].subs, e)
  }

  ghost predicate SayParts(env: Env, nodes: seq<Node>, parts: seq<Part>) {
    if parts == [] then nodes == []
    else
      || (SayPart(env, [], parts[0]) && SayParts(env, nodes, parts[1..]))
      || (nodes != [] && SayPart(env, [nodes[0]], parts[0]) && SayParts(env, nodes[1..], parts[1..]))
  }

  // ---------------------------------------------------------------- their trees

  function PieceItem(piece: Piece): AttrItem {
    match piece
    case Letters(text) => InlineValue(text)
    case Coded(b) => ValueToken(b)
    case Stored(offset, width) => TableValue(offset, width)
  }

  function PieceItems(pieces: seq<Piece>): seq<AttrItem> {
    if pieces == [] then [] else [PieceItem(pieces[0])] + PieceItems(pieces[1..])
  }

  function AttrItems(attrs: seq<Attribute>): seq<AttrItem> {
    if attrs == [] then []
    else
      var t := attrs[0];
      var start := [StartToken(t.start)] + (PieceItems(t.pieces) + AttrItems(attrs[1..]));
      if t.switches then [AttrPage(t.page)] + start else start
  }

  function SettingElem(attrs: seq<Attribute>, text: seq<byte>): Elem {
    Elem(0x07, attrs != [], AttrItems(attrs), text != [], if text == [] then Done else More(Text(text), Done))
  }

  function GroupElem(g: Group): Elem
    decreases g, 0
  {
    Elem(0x06, g.attrs != [], AttrItems(g.attrs), g.entries != NoMore, EntryItems(g.entries))
  }

  function EntryItems(e: Entries): Items
    decreases e, 1
  {
    match e
    case NoMore => Done
    case Setting(attrs, text, rest) => More(Child(SettingElem(attrs, text)), EntryItems(rest))
    case Inner(g, rest) => More(Child(GroupElem(g)), EntryItems(rest))
    case TagPage(page, rest) => More(SetPage(page), EntryItems(rest))
  }

  function PartTop(part: Part): Top {
    match part
    case Loose(switches, g) => Top(switches, GroupElem(g))
    case Wrapped(switches, e) => Top(switches, Elem(0x05, false, [], e != NoMore, EntryItems(e)))
  }

  function PartTops(parts: seq<Part>): seq<Top> {
    if parts == [] then [] else [PartTop(parts[0])] + PartTops(parts[1..])
  }

  // ---------------------------------------------------------------- attribute lists

  /** One piece: it is valid where it stands and adds its text to the open attribute. */
  lemma {:induction false} PieceMeans(env: Env, page: byte, piece: Piece, a: Attrs)
    requires a.name != "" && ValidPiece(env, page, piece)
    ensures ValidAttrItem(env, PieceItem(piece), page, a)
    ensures WbxmlRoundTrip.Apply(env, PieceItem(piece), page, a) == (page, a.(value := a.value + Spelled(env, page, piece)))
  {
    hide IsStart, ValidInteger, ValidString, FromTable, Chars, IsGlobal;
  }

  lemma {:induction false} OneItem(env: Env, item: AttrItem, items: seq<AttrItem>, page: byte, a: Attrs)
    ensures var (page', a') := WbxmlRoundTrip.Apply(env, item, page, a);
            && AttrsMean(env, [item] + items, page, a) == AttrsMean(env, items, page', a')
            && (ValidAttrs(env, [item] + items, page, a) <==> ValidAttrItem(env, item, page, a) && ValidAttrs(env, items, page', a'))
  {
    hide WbxmlRoundTrip.Apply, ValidAttrItem;
    assert ([item] + items)[1..] == items;
  }

  lemma {:induction false} PiecesMean(env: Env, page: byte, pieces: seq<Piece>, tail: seq<AttrItem>, a: Attrs)
    requires a.name != "" && forall i :: 0 <= i < |pieces| ==> ValidPiece(env, page, pieces[i])
    ensures var a', items := a.(value := a.value + Spell(env, page, pieces)), PieceItems(pieces) + tail;
            && AttrsMean(env, items, page, a) == AttrsMean(env, tail, page, a')
            && ValidAttrs(env, items, page, a) == ValidAttrs(env, tail, page, a')
  {
    hide WbxmlRoundTrip.Apply, ValidAttrItem, PieceItem, Spelled, ValidPiece, Flush, AttrsMean, ValidAttrs;
    if pieces == [] {
      assert PieceItems(pieces) + tail == tail && a.value + "" == a.value;
    } else {
      var item, items := PieceItem(pieces[0]), PieceItems(pieces[1..]) + tail;
      assert PieceItems(pieces) + tail == [item] + items;
      OneItem(env, item, items, page, a);
      var s, more := Spelled(env, page, pieces[0]), Spell(env, page, pieces[1..]);
      var a1 := a.(value := a.value + s);
      PieceMeans(env, page, pieces[0], a);
      assert a.value + (s + more) == a.value + s + more;
      PiecesMean(env, page, pieces[1..], tail, a1);
    }
  }

  function Merged(env: Env, m: map<string, string>, attrs: seq<Attribute>): map<string, string>
    decreases |attrs|
  {
    if attrs == [] then m else Merged(env, m[AttrName(env, attrs[0]) := AttrValue(env, attrs[0])], attrs[1..])
  }

  lemma {:induction false} MergedIs(env: Env, m: map<string, string>, attrs: seq<Attribute>, key: string)
    ensures var last := LastOf(env, attrs, key);
            if last.Some? then key in Merged(env, m, attrs) && Merged(env, m, attrs)[key] == last.value
            else (key in Merged(env, m, attrs) <==> key in m) && (key in m ==> Merged(env, m, attrs)[key] == m[key])
    decreases |attrs|
  {
    if attrs != [] {
      hide AttrName, AttrValue;
      MergedIs(env, m[AttrName(env, attrs[0]) := AttrValue(env, attrs[0])], attrs[1..], key);
    }
  }

  lemma {:induction false} AttributesMean(env: Env, attrs: seq<Attribute>, page: byte, a: Attrs)
    requires ValidAttributes(env, attrs, page, a.name != "")
    ensures ValidAttrs(env, AttrItems(attrs), page, a)
    ensures AttrsMean(env, AttrItems(attrs), page, a) == (Merged(env, Flush(env, a).done, attrs), PageAfterAll(attrs, page))
    decreases |attrs|
  {
    if attrs != [] {
      hide ValidPiece, ValidInteger, ValidString, IsGlobal, PieceItems, Spell, FromTable;
      var t, tail := attrs[0], AttrItems(attrs[1..]);
      var pieces := PieceItems(t.pieces) + tail;
      var start := [StartToken(t.start)] + pieces;
      assert start[1..] == pieces;
      assert ([AttrPage(t.page)] + start)[1..] == start;
      var a1 := StartAttr(env, t.page, t.start, a);
      var a2 := a1.(value := a1.value + Spell(env, t.page, t.pieces));
      PiecesMean(env, t.page, t.pieces, tail, a1);
      assert Flush(env, a2).done == Flush(env, a).done[AttrName(env, t) := AttrValue(env, t)];
      AttributesMean(env, attrs[1..], t.page, a2);
      assert WbxmlRoundTrip.Apply(env, StartToken(t.start), t.page, a) == (t.page, a1);
      assert ValidAttrItem(env, StartToken(t.start), t.page, a);
      hide Flush, StartAttr, IsStart, IsValue, Merged;
    }
  }

  lemma {:induction false} ListMeans(env: Env, attrs: seq<Attribute>, page: byte, key: string)
    requires ValidAttributes(env, attrs, page, false)
    ensures ValidAttrs(env, AttrItems(attrs), page, NO_ATTRS)
    ensures var (m, page') := AttrsMean(env, AttrItems(attrs), page, NO_ATTRS);
            page' == PageAfterAll(attrs, page) && Get(m, key) == OrEmpty(LastOf(env, attrs, key))
  {
    hide ValidAttributes, ValidAttrs, AttrsMean, AttrItems, LastOf, Merged, PageAfterAll;
    AttributesMean(env, attrs, page, NO_ATTRS);
    MergedIs(env, map[], attrs, key);
  }

  // ---------------------------------------------------------------- groups and entries

  function TrimSpace(s: string): string {
    Trim(s, IsSpace)
  }

  /** A trimming that keeps a capital letter in front. */
  ghost predicate KeepsCapitals(trim: string -> string) {
    forall s :: s != "" && 'A' <= s[0] <= 'Z' ==> trim(s) != "" && trim(s)[0] == s[0]
  }

  lemma {:induction false} TrimKeepsCapitals()
    ensures KeepsCapitals(TrimSpace)
  {
    forall s: string | s != "" && 'A' <= s[0] <= 'Z' ensures TrimSpace(s) != "" && TrimSpace(s)[0] == s[0] {
      TrimKeepsFirst(s, IsSpace);
    }
  }

  lemma {:induction false} TrimKeepsFirst(s: string, p: char -> bool)
    requires s != "" && !p(s[0])
    ensures Trim(s, p) != "" && Trim(s, p)[0] == s[0]
  {
    hide TrimRight;
    assert TrimLeft(s, p) == s;
    if TrimRight(s, p) == "" {
      AllTrimmed(s, p);
    }
  }

  lemma {:induction false} AllTrimmed(s: string, p: char -> bool)
    requires TrimRight(s, p) == ""
    ensures All(s, p)
  {
    if s != "" {
      AllTrimmed(s[..|s| - 1], p);
      assert forall i :: 0 <= i < |s| - 1 ==> s[..|s| - 1][i] == s[i];
    }
  }

  lemma {:induction false} TypesAreCapital(trim: string -> string, env: Env, page: byte, b: byte)
    requires env.tables == OmaCP(trim) && IsStart(env, page, b) && env.tables.startOf(page, b).value.0 == "type"
    ensures var s := env.tables.startOf(page, b).value.1; s != "" && 'A' <= s[0] <= 'Z'
  {
    hide Values0, Values1, Starts0, Starts1;
    Page0(b);
    Page1(b);
    assert forall i :: 0 <= i < |TYPES_0| ==> TYPES_0[i] != "" && 'A' <= TYPES_0[i][0] <= 'Z';
    assert forall i :: 0 <= i < |TYPES_1| ==> TYPES_1[i] != "" && 'A' <= TYPES_1[i][0] <= 'Z';
  }

  /** So no type is the mark the reader sets on settings. */
  lemma {:induction false} NoTypeIsTheMark(trim: string -> string, env: Env, attrs: seq<Attribute>)
    requires env.tables == OmaCP(trim) && KeepsCapitals(trim)
    ensures OrEmpty(LastOf(env, attrs, "type")) != "__parm__"
  {
    if attrs != [] {
      NoTypeIsTheMark(trim, env, attrs[1..]);
      var t := attrs[0];
      if AttrName(env, t) == "type" {
        TypesAreCapital(trim, env, t.page, t.start);
        var s := env.tables.startOf(t.page, t.start).value.1;
        assert (s + Spell(env, t.page, t.pieces))[0] == s[0];
        assert AttrValue(env, t)[0] == s[0];
      }
    }
  }

  function SettingNodes(env: Env, attrs: seq<Attribute>, text: seq<byte>): (ns: seq<Node>) {
    var name := NameOf(env, attrs, text);
    if env.tables.trim(name) == "" then [] else [Node(PARM_TYPE, map[name := ValueOfSetting(env, attrs)], [])]
  }

  lemma {:induction false} ParamsOfFirst(n: Node, ns: seq<Node>)
    ensures ParamsOf([n] + ns) == (if n.typ == PARM_TYPE then n.params else map[]) + ParamsOf(ns)
  {
    var all := [n] + ns;
    if ns == [] {
      assert all[..0] == [];
    } else {
      assert all[..|all| - 1] == [n] + ns[..|ns| - 1];
      ParamsOfFirst(n, ns[..|ns| - 1]);
    }
  }

  lemma {:induction false} OthersOfFirst(n: Node, ns: seq<Node>)
    ensures OtherThanParms([n] + ns) == (if n.typ == PARM_TYPE then [] else [n]) + OtherThanParms(ns)
  {
    var all := [n] + ns;
    if ns == [] {
      assert all[..0] == [];
    } else {
      assert all[..|all| - 1] == [n] + ns[..|ns| - 1];
      OthersOfFirst(n, ns[..|ns| - 1]);
    }
  }

  /** The nodes of some entries: what the settings among them are, and what is left of them. */
  ghost predicate AreOf(env: Env, ns: seq<Node>, e: Entries) {
    && SayEntries(env, ns, e) && SayInner(env, OtherThanParms(ns), e)
    && (forall name :: name in ParamsOf(ns) <==> LastSetting(env, e, name).Some?)
    && (forall name :: name in ParamsOf(ns) ==> LastSetting(env, e, name) == Some(ParamsOf(ns)[name]))
  }

  lemma {:induction false} NoEntries(env: Env)
    ensures AreOf(env, [], NoMore)
  {
  }

  lemma {:induction false} WithSetting(env: Env, attrs: seq<Attribute>, text: seq<byte>, ns: seq<Node>, rest: Entries)
    requires AreOf(env, ns, rest)
    ensures AreOf(env, SettingNodes(env, attrs, text) + ns, Setting(attrs, text, rest))
  {
    hide NameOf, ValueOfSetting, ParamsOf, OtherThanParms, Says;
    var mine := SettingNodes(env, attrs, text);
    if mine == [] {
      assert mine + ns == ns;
    } else {
      ParamsOfFirst(mine[0], ns);
      OthersOfFirst(mine[0], ns);
      assert mine == [mine[0]] && (mine + ns)[1..] == ns;
      assert [] + OtherThanParms(ns) == OtherThanParms(ns);
    }
  }

  lemma {:induction false} WithGroup(env: Env, n: Node, g: Group, ns: seq<Node>, rest: Entries)
    requires Says(env, n, g) && n.typ != PARM_TYPE && AreOf(env, ns, rest)
    ensures AreOf(env, [n] + ns, Inner(g, rest))
  {
    hide ParamsOf, OtherThanParms, Says;
    ParamsOfFirst(n, ns);
    OthersOfFirst(n, ns);
    assert ([n] + ns)[1..] == ns && ([n] + OtherThanParms(ns))[1..] == OtherThanParms(ns);
  }

  /** What the reader has after the attributes of an element that has some only if the list is not empty. */
  function AttrsOf(env: Env, attrs: seq<Attribute>, page: byte): (map<string, string>, byte) {
    if attrs != [] then AttrsMean(env, AttrItems(attrs), page, NO_ATTRS) else (map[], page)
  }

  lemma {:induction false} AttrsOfIs(env: Env, attrs: seq<Attribute>, page: byte, key: string)
    requires ValidAttributes(env, attrs, page, false)
    ensures attrs != [] ==> ValidAttrs(env, AttrItems(attrs), page, NO_ATTRS)
    ensures AttrsOf(env, attrs, page).1 == PageAfterAll(attrs, page)
    ensures Get(AttrsOf(env, attrs, page).0, key) == OrEmpty(LastOf(env, attrs, key))
  {
    hide AttrsMean, ValidAttrs, ValidAttributes, AttrItems;
    if attrs != [] {
      hide LastOf;
      ListMeans(env, attrs, page, key);
    }
  }

  lemma {:induction false} TextMeans(env: Env, text: seq<byte>, p: Pages)
    requires ValidString(text)
    ensures ValidItems(env, More(Text(text), Done), p)
    ensures ItemsMean(env, More(Text(text), Done), p, "", []) == (Chars(text), [], p)
  {
    assert "" + Chars(text) == Chars(text);
  }

  /** What is known of the tables: the tags. */
  lemma Tags(env: Env, trim: string -> string, page: byte)
    requires env.tables == OmaCP(trim) && page <= 1
    ensures env.tables.tagOf(page, 0x06) == Characteristic && env.tables.tagOf(page, 0x07) == Parm
    ensures env.tables.tagOf(0, 0x05) == Document
  {
  }

  lemma {:induction false} SettingMeans(env: Env, trim: string -> string, attrs: seq<Attribute>, text: seq<byte>, p: Pages)
    requires env.tables == OmaCP(trim) && p.tag <= 1 && ValidAttributes(env, attrs, p.attr, false) && ValidString(text)
    ensures var e, ns := SettingElem(attrs, text), SettingNodes(env, attrs, text);
            ValidElem(env, e, p) && ElemMeans(env, e, p) ==
              (if ns == [] then Nothing else Got(ns[0]), Pages(p.tag, PageAfterAll(attrs, p.attr)))
  {
    Tags(env, trim, p.tag);
    AttrsOfIs(env, attrs, p.attr, "name");
    AttrsOfIs(env, attrs, p.attr, "value");
    var e, q := SettingElem(attrs, text), Pages(p.tag, PageAfterAll(attrs, p.attr));
    TextMeans(env, text, q);
    hide ValidAttributes, ValidAttrs, AttrItems, LastOf, ItemsMean, ValidItems, OmaCP;
    var m := AttrsOf(env, attrs, p.attr).0;
    assert ElemMeans(env, e, p) == (Built(env, Parm, m, Chars(text), []), q);
    hide AttrsMean, ElemMeans, AttrsOf;
  }

  lemma {:induction false} GroupSays(env: Env, g: Group, ns: seq<Node>, m: map<string, string>)
    requires AreOf(env, ns, g.entries) && Get(m, "type") == OrEmpty(LastOf(env, g.attrs, "type"))
    ensures Says(env, Node(Get(m, "type"), ParamsOf(ns), OtherThanParms(ns)), g)
    ensures g.entries == NoMore ==> ns == []
  {
    hide ParamsOf, OtherThanParms, LastOf, LastSetting, SayInner;
  }

  /** An element of a group, given what its attributes and its content mean. */
  lemma {:induction false} GroupBuilt(env: Env, e: Elem, p: Pages, m: map<string, string>, page: byte, ns: seq<Node>, q: Pages)
    requires e.tag == 0x06 && env.tables.tagOf(p.tag, 0x06) == Characteristic
    requires (if e.hasAttrs then AttrsMean(env, e.attrs, p.attr, NO_ATTRS) else (map[], p.attr)) == (m, page)
    requires (if e.hasContent then ItemsMean(env, e.content, Pages(p.tag, page), "", []) else ("", [], Pages(p.tag, page)))
             == ("", ns, q)
    ensures ElemMeans(env, e, p) == (Got(Node(Get(m, "type"), ParamsOf(ns), OtherThanParms(ns))), q)
  {
    hide ItemsMean, AttrsMean, ParamsOf, OtherThanParms, Get;
  }

  lemma {:induction false} GroupMeans(env: Env, trim: string -> string, g: Group, p: Pages) returns (n: Node)
    requires env.tables == OmaCP(trim) && KeepsCapitals(trim) && ValidGroup(env, g, p)
    ensures ValidElem(env, GroupElem(g), p) && ElemMeans(env, GroupElem(g), p) == (Got(n), AfterGroup(g, p))
    ensures Says(env, n, g) && n.typ != PARM_TYPE
    decreases g, 0
  {
    Tags(env, trim, p.tag);
    AttrsOfIs(env, g.attrs, p.attr, "type");
    NoTypeIsTheMark(trim, env, g.attrs);
    var e, q := GroupElem(g), Pages(p.tag, PageAfterAll(g.attrs, p.attr));
    var ns := EntriesMean(env, trim, g.entries, q, []);
    assert [] + ns == ns;
    var (m, page) := AttrsOf(env, g.attrs, p.attr);
    n := Node(Get(m, "type"), ParamsOf(ns), OtherThanParms(ns));
    GroupSays(env, g, ns, m);
    hide OmaCP, KeepsCapitals, ValidAttributes, ValidAttrs, AttrItems, LastOf, ItemsMean, ValidItems, EntryItems, ParamsOf;
    hide OtherThanParms, ValidEntries, AreOf, Says, AttrsMean, ElemMeans;
    GroupBuilt(env, e, p, m, page, ns, AfterEntries(g.entries, q));
  }

  lemma {:induction false} EntriesMean(env: Env, trim: string -> string, e: Entries, p: Pages, before: seq<Node>) returns (ns: seq<Node>)
    requires env.tables == OmaCP(trim) && KeepsCapitals(trim) && ValidEntries(env, e, p)
    ensures ValidItems(env, EntryItems(e), p) && AreOf(env, ns, e)
    ensures ItemsMean(env, EntryItems(e), p, "", before) == ("", before + ns, AfterEntries(e, p))
    decreases e, 1
  {
    hide OmaCP, KeepsCapitals, ValidAttributes, AreOf, ElemMeans, ValidElem, ValidGroup, GroupElem, SettingElem;
    match e {
      case NoMore =>
        ns := [];
        NoEntries(env);
        assert before + [] == before;
      case Setting(attrs, text, rest) =>
        SettingMeans(env, trim, attrs, text, p);
        var mine := SettingNodes(env, attrs, text);
        var others := EntriesMean(env, trim, rest, Pages(p.tag, PageAfterAll(attrs, p.attr)), before + mine);
        WithSetting(env, attrs, text, others, rest);
        ns := mine + others;
        assert before + mine + others == before + ns;
        assert mine == [] ==> before + mine == before;
        assert mine != [] ==> mine == [mine[0]];
      case Inner(g, rest) =>
        var n := GroupMeans(env, trim, g, p);
        var others := EntriesMean(env, trim, rest, AfterGroup(g, p), before + [n]);
        WithGroup(env, n, g, others, rest);
        ns := [n] + others;
        assert before + [n] + others == before + ns;
      case TagPage(page, rest) =>
        ns := EntriesMean(env, trim, rest, Pages(page, p.attr), before);
        SamePages(env, ns, page, rest);
    }
  }

  lemma {:induction false} SamePages(env: Env, ns: seq<Node>, page: byte, rest: Entries)
    requires AreOf(env, ns, rest)
    ensures AreOf(env, ns, TagPage(page, rest))
  {
    hide ParamsOf, OtherThanParms, Says;
  }

  // ---------------------------------------------------------------- whole documents

  lemma {:induction false} SameCount(env: Env, ns: seq<Node>, ms: seq<Node>, e: Entries)
    requires SayEntries(env, ns, e) && SayEntries(env, ms, e)
    ensures |ns| == |ms|
  {
    hide Says, NameOf, ValueOfSetting;
    match e
    case NoMore =>
    case Setting(attrs, text, rest) =>
      if env.tables.trim(NameOf(env, attrs, text)) == "" { SameCount(env, ns, ms, rest); } else { SameCount(env, ns[1..], ms[1..], rest); }
    case Inner(_, rest) => SameCount(env, ns[1..], ms[1..], rest);
    case TagPage(_, rest) => SameCount(env, ns, ms, rest);
  }

  lemma {:induction false} EntriesOf(env: Env, ns: seq<Node>, e: Entries)
    requires AreOf(env, ns, e)
    ensures SayEntries(env, ns, e) && (ns != [] ==> !SayEntries(env, [], e))
    ensures e == NoMore ==> ns == []
  {
    if SayEntries(env, [], e) { SameCount(env, ns, [], e); }
  }

  /** The element of a whole document, given what its content means. */
  lemma {:induction false} DocumentBuilt(env: Env, e: Elem, p: Pages, ns: seq<Node>, q: Pages)
    requires e.tag == 0x05 && !e.hasAttrs && env.tables.tagOf(p.tag, 0x05) == Document
    requires (if e.hasContent then ItemsMean(env, e.content, p, "", []) else ("", [], p)) == ("", ns, q)
    ensures ElemMeans(env, e, p) == (if ns == [] then Nothing else Got(Node("wap-provisioningdoc", map[], ns)), q)
  {
    hide ItemsMean;
  }

  lemma {:induction false} WrappedMeans(env: Env, trim: string -> string, part: Part, p: Pages) returns (ns: seq<Node>)
    requires env.tables == OmaCP(trim) && KeepsCapitals(trim) && part.Wrapped? && ValidPart(env, part, p)
    ensures ValidElem(env, PartTop(part).elem, p.(tag := PageAfter(part.switches, p.tag)))
    ensures TopMeans(env, PartTop(part), p) ==
            (if ns == [] then Nothing else Got(Node("wap-provisioningdoc", map[], ns)), AfterPart(part, p))
    ensures SayEntries(env, ns, part.entries) && (ns != [] ==> !SayEntries(env, [], part.entries))
  {
    hide OmaCP, KeepsCapitals, ItemsMean, ValidItems, EntryItems, ValidEntries, AreOf, SayEntries, ElemMeans, AttrsMean;
    Tags(env, trim, 0);
    var q := Pages(PageAfter(part.switches, p.tag), p.attr);
    ns := EntriesMean(env, trim, part.entries, q, []);
    EntriesOf(env, ns, part.entries);
    assert [] + ns == ns;
    DocumentBuilt(env, PartTop(part).elem, q, ns, AfterEntries(part.entries, q));
  }

  lemma {:induction false} PartMeans(env: Env, trim: string -> string, part: Part, p: Pages) returns (mine: seq<Node>)
    requires env.tables == OmaCP(trim) && KeepsCapitals(trim) && ValidPart(env, part, p)
    ensures ValidElem(env, PartTop(part).elem, p.(tag := PageAfter(PartTop(part).switches, p.tag)))
    ensures |mine| <= 1 && SayPart(env, mine, part)
    ensures TopMeans(env, PartTop(part), p) == (if mine == [] then Nothing else Got(mine[0]), AfterPart(part, p))
  {
    var q := Pages(PageAfter(part.switches, p.tag), p.attr);
    match part {
      case Loose(_, g) =>
        var n := GroupMeans(env, trim, g, q);
        mine := [n];
      case Wrapped(_, e) =>
        var ns := WrappedMeans(env, trim, part, p);
        mine := if ns == [] then [] else [Node("wap-provisioningdoc", map[], ns)];
    }
    hide OmaCP, KeepsCapitals, ElemMeans, ValidElem, ValidGroup, ValidEntries, Says, SayEntries, GroupElem, EntryItems;
  }

  lemma {:induction false} PartsMean(env: Env, trim: string -> string, parts: seq<Part>, p: Pages, before: seq<Node>) returns (ns: seq<Node>)
    requires env.tables == OmaCP(trim) && KeepsCapitals(trim) && ValidParts(env, parts, p)
    ensures ValidTops(env, PartTops(parts), p) && TopsMean(env, PartTops(parts), p, before) == before + ns
    ensures SayParts(env, ns, parts)
    decreases |parts|
  {
    hide OmaCP, KeepsCapitals, ElemMeans, ValidElem, ValidPart, SayPart, PartTop, TopMeans, AfterPart;
    if parts == [] {
      ns := [];
      assert before + [] == before;
    } else {
      var mine := PartMeans(env, trim, parts[0], p);
      var others := PartsMean(env, trim, parts[1..], AfterPart(parts[0], p), before + mine);
      ns := mine + others;
      assert before + mine + others == before + ns;
      assert PartTops(parts)[1..] == PartTops(parts[1..]);
      if mine == [] {
        assert before + mine == before && ns == others;
      } else {
        assert mine == [mine[0]] && ns[1..] == others;
      }
    }
  }

  /** The octets of a document: version, public id, charset, string table, then its parts. */
  function DocumentOf(version: byte, charset: nat, strings: seq<byte>, parts: seq<Part>, tail: seq<byte>, k1: nat, k2: nat, k3: nat): seq<byte>
    requires k1 > 0 && k2 > 0 && k3 > 0
  {
    [version] + (Encoded(0x0B, k1) + (Encoded(charset, k2) + (Encoded(|strings|, k3) + (strings + (EncodeTops(PartTops(parts)) + tail)))))
  }

  /** Decoding gives what the document says: for all groups of settings, nested to any depth, with names and
      values in letters, value tokens and table strings of both pages, wrapped or not, and whatever comes
      after the place where the reader stops. */
  lemma {:induction false} DecodesWhatIsSaid(
      trim: string -> string, version: byte, charset: nat, strings: seq<byte>, parts: seq<Part>, tail: seq<byte>, k1: nat, k2: nat, k3: nat)
    requires KeepsCapitals(trim) && 1 <= k1 <= 5 && 1 <= k2 <= 5 && 1 <= k3 <= 5
    requires charset < Pow128(k2) && |strings| < Pow128(k3) && |strings| < U32
    requires ValidParts(Env(strings, OmaCP(trim)), parts, Pages(0, 0)) && StopsAt(tail)
    ensures var env := Env(strings, OmaCP(trim));
            match Decode(DocumentOf(version, charset, strings, parts, tail, k1, k2, k3), OmaCP(trim))
            case Config(v, nodes) => v == version && nodes != [] && SayParts(env, nodes, parts)
            case NothingDecoded => SayParts(env, [], parts)
            case BadHeader(_) => false
  {
    hide OmaCP, KeepsCapitals, ValidParts, ValidTops, StopsAt, Encoded, Pow128, EncodeTops, PartTops, TopsMean, SayParts, Decode;
    var env := Env(strings, OmaCP(trim));
    assert env.tables == OmaCP(trim);
    var nodes := PartsMean(env, trim, parts, Pages(0, 0), []);
    assert [] + nodes == nodes;
    DecodeInvertsEncode(OmaCP(trim), version, charset, strings, PartTops(parts), tail, k1, k2, k3);
  }

  // ---------------------------------------------------------------- strings of the table

  /** A table reference gives the string that starts there, up to its NUL or the end of the table, and the
      empty string from the table's end on. */
  lemma {:induction false} StoredString(strings: seq<byte>, offset: nat, text: seq<byte>)
    requires ValidString(text) && offset + |text| <= |strings| && strings[offset..offset + |text|] == text
    requires offset + |text| < |strings| ==> strings[offset + |text|] == 0
    ensures FromTable(strings, offset) == Chars(text)
    ensures FromTable(strings, |strings| + offset) == ""
  {
    var rest := strings[offset..];
    assert rest[..|text|] == text;
    if offset + |text| < |strings| {
      assert rest == text + ([0] + rest[|text| + 1..]);
      UpToNulStops(text, rest[|text| + 1..]);
    } else {
      assert rest == text;
      NoNul(text);
    }
  }

  lemma {:induction false} NoNul(text: seq<byte>)
    requires ValidString(text)
    ensures UpToNul(text) == text
  {
    if text != [] {
      NoNul(text[1..]);
      assert text == [text[0]] + text[1..];
    }
  }

  /** A string in the data without its NUL goes to the end of the data. */
  lemma {:induction false} UnendedString(text: seq<byte>)
    requires ValidString(text)
    ensures Inline(text) == (Chars(text), [])
  {
    NoNul(text);
  }

  /** Opaque data longer than what is left is not skipped: reading goes on right behind its length. */
  lemma {:induction false} CutOpaque(n: nat, width: nat, more: seq<byte>)
    requires ValidInteger(n, width) && n > |more|
    ensures AfterOpaque(Encoded(n, width) + more) == more
  {
    hide Read, Encoded;
    ReadsEncoded(n, width, more);
  }
}
