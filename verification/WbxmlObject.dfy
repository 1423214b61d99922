/** The reader as an object that moves its cursor and pages. */
module WbxmlObject {
  import opened Wrappers
  import opened Bytes
  import opened WbxmlHeader
  import opened WbxmlReader

  lemma Cut(data: seq<byte>, pos: nat)
    requires pos < |data|
    ensures data[pos..] != [] && data[pos..][0] == data[pos] && data[pos..][1..] == data[pos + 1..]
  {
  }

  lemma {:induction false} NulAt(s: seq<byte>, start: nat, end: nat)
    requires start <= end <= |s| && (forall k :: start <= k < end ==> s[k] != 0)
    requires end == |s| || s[end] == 0
    ensures UpToNul(s[start..]) == s[start..end]
    decreases end - start
  {
    if start < end {
      NulAt(s, start + 1, end);
      Cut(s, start);
      assert s[start..end] == [s[start]] + s[start + 1..end];
    }
  }

  lemma InlineAt(data: seq<byte>, start: nat, end: nat)
    requires start <= end <= |data| && (forall k :: start <= k < end ==> data[k] != 0)
    requires end == |data| || data[end] == 0
    ensures Inline(data[start..]) == (Chars(data[start..end]), if end < |data| then data[end + 1..] else [])
  {
    NulAt(data, start, end);
    if end < |data| { assert data[start..][end - start + 1..] == data[end + 1..]; }
  }

  class Reader {
    const data: seq<byte>
    const tables: Tables
    var pos: nat
    var strTable: seq<byte>
    var tagPage: byte
    var attrPage: byte

    ghost predicate Valid()
      reads this
    {
      pos <= |data|
    }

    ghost function Rest(): seq<byte>
      requires Valid()
      reads this
    {
      data[pos..]
    }

    ghost function View(): In
      requires Valid()
      reads this
    {
      In(Rest(), tagPage, attrPage)
    }

    ghost function Env(): Env
      reads this
    {
      WbxmlReader.Env(strTable, tables)
    }

    constructor (data: seq<byte>, tables: Tables)
      ensures Valid() && this.data == data && this.tables == tables
      ensures View() == In(data, 0, 0) && strTable == []
    {
      this.data, this.tables := data, tables;
      pos, strTable, tagPage, attrPage := 0, [], 0, 0;
      new;
      assert data[0..] == data;
    }

    method ReadByte() returns (b: Option<byte>)
      requires Valid()
      modifies this`pos
      ensures Valid()
      ensures old(Rest()) == [] ==> b == None && pos == old(pos)
      ensures old(Rest()) != [] ==> b == Some(old(Rest())[0]) && pos == old(pos) + 1 && Rest() == old(Rest())[1..]
    {
      if pos >= |data| {
        return None;
      }
      Cut(data, pos);
      b := Some(data[pos]);
      pos := pos + 1;
    }

    method ReadMBUint32() returns (r: Option<nat>)
      requires Valid()
      modifies this`pos
      ensures Valid() && old(pos) <= pos
      ensures var i := Read(old(Rest())); Rest() == i.rest && r == if i.Value? then Some(i.n) else None
    {
      hide Wrap32, Low7, ReadOn;
      var result: nat := 0;
      for i := 0 to 5
        invariant Valid() && old(pos) <= pos
        invariant Read(old(Rest())) == ReadOn(Rest(), result, 5 - i)
      {
        StepAt(data, pos, result, 5 - i);
        var b := ReadByte();
        if b == None {
          return None;
        }
        result := Wrap32(result * 128) + Low7(b.value);
        if b.value < 0x80 {
          return Some(result);
        }
      }
      StepAt(data, pos, result, 0);
      return None;
    }

    method ReadStrI() returns (s: string)
      requires Valid()
      modifies this`pos
      ensures Valid() && old(pos) <= pos
      ensures (s, Rest()) == Inline(old(Rest()))
    {
      hide Inline, Chars;
      var start := pos;
      while pos < |data| && data[pos] != 0
        invariant Valid() && start <= pos && forall k :: start <= k < pos ==> data[k] != 0
      {
        pos := pos + 1;
      }
      InlineAt(data, start, pos);
      if pos >= |data| {
        assert data[start..pos] == data[start..] && data[pos..] == [];
        return Chars(data[start..]);
      }
      s := Chars(data[start..pos]);
      pos := pos + 1;
    }

    method ReadStrT(offset: nat) returns (s: string)
      ensures s == FromTable(strTable, offset)
    {
      if offset >= |strTable| {
        return "";
      }
      var end := offset;
      while end < |strTable| && strTable[end] != 0
        invariant offset <= end <= |strTable| && forall k :: offset <= k < end ==> strTable[k] != 0
      {
        end := end + 1;
      }
      NulAt(strTable, offset, end);
      return Chars(strTable[offset..end]);
    }

    method ReadBytes(n: nat) returns (b: Option<seq<byte>>)
      requires Valid()
      modifies this`pos
      ensures Valid() && old(pos) <= pos
      ensures if n <= |old(Rest())| then b == Some(old(Rest())[..n]) && Rest() == old(Rest())[n..]
              else b == None && Rest() == old(Rest())
    {
      if pos + n > |data| {
        return None;
      }
      b := Some(data[pos..pos + n]);
      assert data[pos..][..n] == data[pos..pos + n] && data[pos..][n..] == data[pos + n..];
      pos := pos + n;
    }

    /** A string-table reference; one that cannot be read refers to the table's first string. */
    method ReadRef() returns (s: string)
      requires Valid()
      modifies this`pos
      ensures Valid() && old(pos) <= pos
      ensures var offset := Read(old(Rest())); s == FromTable(strTable, ValueOf(offset)) && Rest() == offset.rest
    {
      var offset := ReadMBUint32();
      s := ReadStrT(if offset.Some? then offset.value else 0);
    }

    method SkipOpaque()
      requires Valid()
      modifies this`pos
      ensures Valid() && old(pos) <= pos
      ensures Rest() == AfterOpaque(old(Rest()))
    {
      var length := ReadMBUint32();
      var _ := ReadBytes(if length.Some? then length.value else 0);
    }

    method ParseAttributes() returns (attrs: map<string, string>)
      requires Valid()
      modifies this`pos, this`attrPage
      ensures Valid() && old(pos) <= pos
      ensures (attrs, Rest(), attrPage) == Attributes(Env(), old(Rest()), old(attrPage), NO_ATTRS)
    {
      hide Attributes, Inline, FromTable, AfterOpaque, Read;
      var a := NO_ATTRS;
      while pos < |data|
        invariant Valid() && old(pos) <= pos
        invariant Attributes(Env(), Rest(), attrPage, a) == Attributes(Env(), old(Rest()), old(attrPage), NO_ATTRS)
        decreases |data| - pos
      {
        AttributesStep(Env(), Rest(), attrPage, a);
        var b := ReadByte();
        var token := b.value;
        if token == END_TOKEN {
          a := Flushed(a);
          return a.done;
        }
        if token == SWITCH_PAGE {
          var page := ReadByte();
          if page == None {
            break;
          }
          attrPage := page.value;
        } else if token == STR_I {
          var s := ReadStrI();
          a := Append(a, s);
        } else if token == STR_T {
          var s := ReadRef();
          a := Append(a, s);
        } else if token == OPAQUE_TOKEN {
          SkipOpaque();
        } else {
          a := Take(token, a);
        }
      }
      AttributesEnd(Env(), attrPage, a);
      a := Flushed(a);
      return a.done;
    }

    /** flushAttr */
    method Flushed(a: Attrs) returns (r: Attrs)
      ensures r == Flush(Env(), a)
    {
      r := a;
      if a.name != "" {
        r := r.(done := a.done[a.name := tables.trim(a.value)]);
      }
      r := r.(name := "", value := "");
    }

    /** The table lookups of an attribute list, in the order they are tried. */
    method Take(b: byte, a: Attrs) returns (r: Attrs)
      ensures r == Token(Env(), attrPage, b, a)
    {
      var value := tables.valueOf(attrPage, b);
      if a.name != "" {
        if value.Some? && value.value != "" {
          return Append(a, value.value);
        }
      }
      var entry := tables.startOf(attrPage, b);
      if entry.Some? && entry.value.0 != "" {
        r := Flushed(a);
        return r.(name := entry.value.0, value := entry.value.1);
      }
      if value.Some? && value.value != "" {
        return Append(a, value.value);
      }
      return a;
    }

    method BuildNode(kind: TagKind, attrs: map<string, string>, text: string, children: seq<Node>) returns (o: Outcome)
      ensures o == Built(Env(), kind, attrs, text, children)
    {
      match kind {
        case Characteristic =>
          var params: map<string, string> := map[];
          var subs := [];
          assert children[..|children|] == children;
          for i := 0 to |children|
            invariant params == ParamsOf(children[..i]) && subs == OtherThanParms(children[..i])
          {
            assert children[..i + 1][..i] == children[..i];
            if children[i].typ == PARM_TYPE {
              params := params + children[i].params;
            } else {
              subs := subs + [children[i]];
            }
          }
          return Got(Node(Get(attrs, "type"), params, subs));
        case Parm =>
          var name := Get(attrs, "name");
          if name == "" && |text| > 0 {
            name := text;
          }
          if tables.trim(name) == "" {
            return Nothing;
          }
          return Got(Node(PARM_TYPE, map[name := Get(attrs, "value")], []));
        case Document =>
          if |children| > 0 {
            return Got(Node(DOCUMENT_TYPE, map[], children));
          }
          return Nothing;
        case OtherTag =>
          return Nothing;
      }
    }

    method ParseElement() returns (o: Outcome)
      requires Valid()
      modifies this`pos, this`tagPage, this`attrPage
      ensures Valid() && old(pos) <= pos && (old(pos) < |data| ==> old(pos) < pos)
      ensures (o, View()) == Element(Env(), old(View()))
      decreases |data| - pos, 0
    {
      hide Attributes, Content, Built;
      var first := ReadByte();
      if first == None {
        return Failed;
      }
      var b := first.value;
      if b == SWITCH_PAGE {
        var page := ReadByte();
        if page == None {
          return Failed;
        }
        tagPage := page.value;
        o := ParseElement();
        return;
      }
      if b == END_TOKEN {
        return Failed;
      }
      var kind := tables.tagOf(tagPage, b % 0x40);
      var attrs: map<string, string> := map[];
      if b >= 0x80 {
        attrs := ParseAttributes();
      }
      var text, children := "", [];
      if b / 0x40 % 2 == 1 {
        text, children := ParseContent();
      }
      o := BuildNode(kind, attrs, text, children);
    }

    /** The content loop of parseElement. */
    method ParseContent() returns (text: string, children: seq<Node>)
      requires Valid()
      modifies this`pos, this`tagPage, this`attrPage
      ensures Valid() && old(pos) <= pos
      ensures (text, children, View()) == Content(Env(), old(View()), "", [])
      decreases |data| - pos, 2
    {
      hide Content, NextItem;
      text, children := "", [];
      while pos < |data|
        invariant Valid() && old(pos) <= pos
        invariant Content(Env(), View(), text, children) == Content(Env(), old(View()), "", [])
        decreases |data| - pos
      {
        ContentStep(Env(), View(), text, children);
        var stop;
        text, children, stop := TakeItem(text, children);
        if stop {
          return;
        }
      }
      ContentEnd(Env(), View(), text, children);
    }

    /** One turn of the content loop. */
    method TakeItem(text: string, children: seq<Node>) returns (text': string, children': seq<Node>, stop: bool)
      requires Valid() && pos < |data|
      modifies this`pos, this`tagPage, this`attrPage
      ensures Valid() && old(pos) < pos
      ensures (text', children', View(), stop) == NextItem(Env(), old(View()), text, children)
      decreases |data| - pos, 1
    {
      hide Element, Inline, FromTable, AfterOpaque, Read;
      Cut(data, pos);
      text', children', stop := text, children, false;
      var peek := data[pos];
      if peek == END_TOKEN {
        pos := pos + 1;
        stop := true;
      } else if peek == STR_I {
        pos := pos + 1;
        var s := ReadStrI();
        text' := text + s;
      } else if peek == STR_T {
        pos := pos + 1;
        var s := ReadRef();
        text' := text + s;
      } else if peek == OPAQUE_TOKEN {
        pos := pos + 1;
        SkipOpaque();
      } else if peek == SWITCH_PAGE {
        pos := pos + 1;
        var page := ReadByte();
        tagPage := if page.Some? then page.value else 0;
      } else {
        var child := ParseElement();
        if child == Failed {
          stop := true;
        } else if child.Got? {
          children' := children + [child.node];
        }
      }
    }

    /** The header stage of decodeWBXML. */
    method ReadHeader() returns (version: byte, error: Option<HeaderError>)
      requires Valid() && strTable == []
      modifies this
      ensures Valid() && tagPage == old(tagPage) && attrPage == old(attrPage)
      ensures match error
              case None => HeaderStage(old(Rest())) == Parsed(Header(version, strTable, Rest()))
              case Some(e) => HeaderStage(old(Rest())) == Refused(e)
    {
      hide Read;
      var first := ReadByte();
      if first == None {
        return 0, Some(NoVersion);
      }
      version := first.value;
      var id := ReadMBUint32();
      if id == None {
        return version, Some(NoPublicId);
      }
      if id.value != PUBLIC_ID {
        return version, Some(WrongPublicId(id.value));
      }
      var charset := ReadMBUint32();
      if charset == None {
        return version, Some(NoCharset);
      }
      var strTableLen := ReadMBUint32();
      if strTableLen == None {
        return version, Some(NoTableLength);
      }
      if strTableLen.value > 0 {
        var strings := ReadBytes(strTableLen.value);
        if strings == None {
          return version, Some(NoTable);
        }
        strTable := strings.value;
      }
      error := None;
    }

    /** The body stage: elements until the data ends or one fails; what came before is kept. */
    method ReadBody() returns (nodes: seq<Node>)
      requires Valid()
      modifies this`pos, this`tagPage, this`attrPage
      ensures nodes == Elements(Env(), old(View()), [])
    {
      hide Element;
      nodes := [];
      while pos < |data|
        invariant Valid()
        invariant Elements(Env(), View(), nodes) == Elements(Env(), old(View()), [])
        decreases |data| - pos
      {
        var o := ParseElement();
        if o == Failed {
          return;
        }
        if o.Got? {
          nodes := nodes + [o.node];
        }
      }
    }
  }

  lemma AttributesStep(env: Env, rest: seq<byte>, page: byte, a: Attrs)
    requires rest != []
    ensures var b, more := rest[0], rest[1..];
      Attributes(env, rest, page, a) ==
        if b == END_TOKEN then (Flush(env, a).done, more, page)
        else if b == SWITCH_PAGE then
          if more == [] then (Flush(env, a).done, [], page) else Attributes(env, more[1..], more[0], a)
        else if b == STR_I then Attributes(env, Inline(more).1, page, Append(a, Inline(more).0))
        else if b == STR_T then Attributes(env, Read(more).rest, page, Append(a, FromTable(env.strings, ValueOf(Read(more)))))
        else if b == OPAQUE_TOKEN then Attributes(env, AfterOpaque(more), page, a)
        else Attributes(env, more, page, Token(env, page, b, a))
  {
  }

  lemma AttributesEnd(env: Env, page: byte, a: Attrs)
    ensures Attributes(env, [], page, a) == (Flush(env, a).done, [], page)
  {
  }

  /** One item of a content: the text and children then, where the reader is, and whether the content
      ends there. */
  function NextItem(env: Env, i: In, text: string, children: seq<Node>): (r: (string, seq<Node>, In, bool))
    requires i.rest != []
  {
    var b, more := i.rest[0], i.rest[1..];
    if b == END_TOKEN then (text, children, i.(rest := more), true)
    else if b == STR_I then (text + Inline(more).0, children, i.(rest := Inline(more).1), false)
    else if b == STR_T then
      (text + FromTable(env.strings, ValueOf(Read(more))), children, i.(rest := Read(more).rest), false)
    else if b == OPAQUE_TOKEN then (text, children, i.(rest := AfterOpaque(more)), false)
    else if b == SWITCH_PAGE then
      (text, children, if more == [] then In([], 0, i.attrPage) else In(more[1..], more[0], i.attrPage), false)
    else
      var (o, j) := Element(env, i);
      (text, if o.Got? then children + [o.node] else children, j, o == Failed)
  }

  lemma {:induction false} ContentStep(env: Env, i: In, text: string, children: seq<Node>)
    requires i.rest != []
    ensures var (text', children', j, stop) := NextItem(env, i, text, children);
            Content(env, i, text, children) == if stop then (text', children', j) else Content(env, j, text', children')
  {
    hide Element, Inline, FromTable, AfterOpaque, Read;
  }

  lemma ContentEnd(env: Env, i: In, text: string, children: seq<Node>)
    ensures i.rest == [] ==> Content(env, i, text, children) == (text, children, i)
  {
  }

  lemma DecodesTo(data: seq<byte>, tables: Tables, h: Header)
    requires HeaderStage(data) == Parsed(h)
    ensures var nodes := Elements(WbxmlReader.Env(h.table, tables), In(h.body, 0, 0), []);
            Decode(data, tables) == if nodes == [] then NothingDecoded else Config(h.version, nodes)
  {
  }

  lemma RefusedAs(data: seq<byte>, tables: Tables, e: HeaderError)
    requires HeaderStage(data) == Refused(e)
    ensures Decode(data, tables) == BadHeader(e)
  {
  }

  /** decodeWBXML */
  method DecodeWBXML(data: seq<byte>, tables: Tables) returns (r: Decoded)
    ensures r == Decode(data, tables)
  {
    hide HeaderStage, Elements, Decode;
    var reader := new Reader(data, tables);
    ghost var all := reader.Rest();
    assert all == data;
    var version, error := reader.ReadHeader();
    if error.Some? {
      RefusedAs(data, tables, error.value);
      return BadHeader(error.value);
    }
    ghost var h := Header(version, reader.strTable, reader.Rest());
    assert HeaderStage(all) == Parsed(h);
    DecodesTo(data, tables, h);
    assert reader.Env() == WbxmlReader.Env(h.table, tables) && reader.View() == In(h.body, 0, 0);
    var nodes := reader.ReadBody();
    if nodes == [] {
      return NothingDecoded;
    }
    return Config(version, nodes);
  }
}
