/** The WBXML reader: mutually nested elements, contents and attribute lists over one cursor. */
module WbxmlReader {
  import opened Wrappers
  import opened Bytes
  import opened WbxmlHeader

  // ---------------------------------------------------------------- tokens and tables

  const SWITCH_PAGE: byte := 0x00
  const END_TOKEN: byte := 0x01
  const STR_I: byte := 0x03
  const STR_T: byte := 0x83
  const OPAQUE_TOKEN: byte := 0xC3

  datatype TagKind = Characteristic | Parm | Document | OtherTag

  /** The token tables by code page, and the white-space trimming of attribute values. A token that
      is in no table gives nothing. */
  datatype Tables = Tables(
    tagOf: (byte, byte) -> TagKind,
    startOf: (byte, byte) -> Option<(string, string)>,
    valueOf: (byte, byte) -> Option<string>,
    trim: string -> string)

  datatype Env = Env(strings: seq<byte>, tables: Tables)

  datatype Node = Node(typ: string, params: map<string, string>, subs: seq<Node>)

  const PARM_TYPE: string := "__parm__"
  const DOCUMENT_TYPE: string := "wap-provisioningdoc"

  /** Octets as the text Go makes of them. */
  function Chars(s: seq<byte>): (t: string)
    ensures |t| == |s|
  {
    seq(|s|, i requires 0 <= i < |s| => s[i] as int as char)
  }

  function UpToNul(s: seq<byte>): (t: seq<byte>)
    ensures |t| <= |s| && t == s[..|t|] && 0 !in t && (|t| < |s| ==> s[|t|] == 0)
  {
    if s == [] || s[0] == 0 then []
    else
      var t := UpToNul(s[1..]);
      assert [s[0]] + t == s[..|t| + 1];
      [s[0]] + t
  }

  /** A string in the data up to its NUL, or to the end if there is none. */
  function Inline(rest: seq<byte>): (r: (string, seq<byte>))
    ensures |r.1| <= |rest|
  {
    var s := UpToNul(rest);
    (Chars(s), if |s| < |rest| then rest[|s| + 1..] else [])
  }

  function FromTable(strings: seq<byte>, offset: nat): string {
    if offset >= |strings| then "" else Chars(UpToNul(strings[offset..]))
  }

  /** After opaque data; data that is not all there is not skipped. */
  function AfterOpaque(rest: seq<byte>): (r: seq<byte>)
    ensures |r| <= |rest|
  {
    var length := Read(rest);
    if ValueOf(length) <= |length.rest| then length.rest[ValueOf(length)..] else length.rest
  }

  // ---------------------------------------------------------------- attributes

  datatype Attrs = Attrs(done: map<string, string>, name: string, value: string)

  const NO_ATTRS := Attrs(map[], "", "")

  function Flush(env: Env, a: Attrs): Attrs {
    Attrs(if a.name != "" then a.done[a.name := env.tables.trim(a.value)] else a.done, "", "")
  }

  function Append(a: Attrs, s: string): Attrs {
    a.(value := a.value + s)
  }

  predicate IsValue(env: Env, page: byte, b: byte) {
    var v := env.tables.valueOf(page, b);
    v.Some? && v.value != ""
  }

  predicate IsStart(env: Env, page: byte, b: byte) {
    var s := env.tables.startOf(page, b);
    s.Some? && s.value.0 != ""
  }

  function StartAttr(env: Env, page: byte, b: byte, a: Attrs): Attrs
    requires IsStart(env, page, b)
  {
    var (name, value) := env.tables.startOf(page, b).value;
    Attrs(Flush(env, a).done, name, value)
  }

  /** A token in an attribute list: once a name is open the value table comes first. */
  function Token(env: Env, page: byte, b: byte, a: Attrs): Attrs {
    if a.name != "" && IsValue(env, page, b) then Append(a, env.tables.valueOf(page, b).value)
    else if IsStart(env, page, b) then StartAttr(env, page, b, a)
    else if IsValue(env, page, b) then Append(a, env.tables.valueOf(page, b).value)
    else a
  }

  /** An attribute list: the attributes, the data after it and the attribute page. */
  function Attributes(env: Env, rest: seq<byte>, page: byte, a: Attrs): (r: (map<string, string>, seq<byte>, byte))
    ensures |r.1| <= |rest|
    decreases |rest|
  {
    if rest == [] then (Flush(env, a).done, [], page)
    else
      var b, more := rest[0], rest[1..];
      if b == END_TOKEN then (Flush(env, a).done, more, page)
      else if b == SWITCH_PAGE then
        if more == [] then (Flush(env, a).done, [], page) else Attributes(env, more[1..], more[0], a)
      else if b == STR_I then Attributes(env, Inline(more).1, page, Append(a, Inline(more).0))
      else if b == STR_T then
        var offset := Read(more);
        Attributes(env, offset.rest, page, Append(a, FromTable(env.strings, ValueOf(offset))))
      else if b == OPAQUE_TOKEN then Attributes(env, AfterOpaque(more), page, a)
      else Attributes(env, more, page, Token(env, page, b, a))
  }

  // ---------------------------------------------------------------- elements and contents

  datatype In = In(rest: seq<byte>, tagPage: byte, attrPage: byte)

  datatype Outcome = Failed | Nothing | Got(node: Node)

  /** The parameters of the parm children, later ones winning. */
  function ParamsOf(children: seq<Node>): map<string, string> {
    if children == [] then map[]
    else
      var last := children[|children| - 1];
      var before := ParamsOf(children[..|children| - 1]);
      if last.typ == PARM_TYPE then before + last.params else before
  }

  function OtherThanParms(children: seq<Node>): seq<Node> {
    if children == [] then []
    else
      var last := children[|children| - 1];
      OtherThanParms(children[..|children| - 1]) + if last.typ == PARM_TYPE then [] else [last]
  }

  function Get(m: map<string, string>, k: string): string {
    if k in m then m[k] else ""
  }

  function Built(env: Env, kind: TagKind, attrs: map<string, string>, text: string, children: seq<Node>): (o: Outcome)
    ensures o != Failed
  {
    match kind
    case Characteristic => Got(Node(Get(attrs, "type"), ParamsOf(children), OtherThanParms(children)))
    case Parm =>
      var name := if Get(attrs, "name") == "" && text != "" then text else Get(attrs, "name");
      if env.tables.trim(name) == "" then Nothing else Got(Node(PARM_TYPE, map[name := Get(attrs, "value")], []))
    case Document => if children == [] then Nothing else Got(Node(DOCUMENT_TYPE, map[], children))
    case OtherTag => Nothing
  }

  /** One element, switches of the tag page before it included. */
  function Element(env: Env, i: In): (r: (Outcome, In))
    ensures |r.1.rest| <= |i.rest|
    ensures i.rest != [] ==> |r.1.rest| < |i.rest|
    decreases |i.rest|, 0
  {
    if i.rest == [] then (Failed, i)
    else
      var b, more := i.rest[0], i.rest[1..];
      if b == SWITCH_PAGE then
        if more == [] then (Failed, i.(rest := [])) else Element(env, In(more[1..], more[0], i.attrPage))
      else if b == END_TOKEN then (Failed, i.(rest := more))
      else
        var (attrs, rest, page) := if b >= 0x80 then Attributes(env, more, i.attrPage, NO_ATTRS) else (map[], more, i.attrPage);
        var after := In(rest, i.tagPage, page);
        var (text, children, end) := if b / 0x40 % 2 == 1 then Content(env, after, "", []) else ("", [], after);
        (Built(env, env.tables.tagOf(i.tagPage, b % 0x40), attrs, text, children), end)
  }

  /** The content of an element up to its end, or to the first thing that is not an element. */
  function Content(env: Env, i: In, text: string, children: seq<Node>): (r: (string, seq<Node>, In))
    ensures |r.2.rest| <= |i.rest|
    decreases |i.rest|, 1
  {
    if i.rest == [] then (text, children, i)
    else
      var b, more := i.rest[0], i.rest[1..];
      if b == END_TOKEN then (text, children, i.(rest := more))
      else if b == STR_I then Content(env, i.(rest := Inline(more).1), text + Inline(more).0, children)
      else if b == STR_T then
        var offset := Read(more);
        Content(env, i.(rest := offset.rest), text + FromTable(env.strings, ValueOf(offset)), children)
      else if b == OPAQUE_TOKEN then Content(env, i.(rest := AfterOpaque(more)), text, children)
      else if b == SWITCH_PAGE then
        if more == [] then (text, children, In([], 0, i.attrPage))
        else Content(env, In(more[1..], more[0], i.attrPage), text, children)
      else
        match Element(env, i)
        case (Failed, j) => (text, children, j)
        case (Nothing, j) => Content(env, j, text, children)
        case (Got(n), j) => Content(env, j, text, children + [n])
  }

  /** The top level. */
  function Elements(env: Env, i: In, nodes: seq<Node>): seq<Node>
    decreases |i.rest|
  {
    if i.rest == [] then nodes
    else
      match Element(env, i)
      case (Failed, _) => nodes
      case (Nothing, j) => Elements(env, j, nodes)
      case (Got(n), j) => Elements(env, j, nodes + [n])
  }

  datatype Decoded = Config(version: byte, nodes: seq<Node>) | BadHeader(error: HeaderError) | NothingDecoded

  /** decodeWBXML */
  function Decode(data: seq<byte>, tables: Tables): Decoded {
    match HeaderStage(data)
    case Refused(e) => BadHeader(e)
    case Parsed(h) =>
      var nodes := Elements(Env(h.table, tables), In(h.body, 0, 0), []);
      if nodes == [] then NothingDecoded else Config(h.version, nodes)
  }
}
