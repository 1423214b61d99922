/** One small provisioning document, octet by octet. */
module WbxmlExample {
  import opened Wrappers
  import opened Bytes
  import opened Text
  import opened WbxmlHeader
  import opened WbxmlReader
  import opened WbxmlRoundTrip
  import opened WbxmlTables
  import opened WbxmlMeaning

  const INTERNET: seq<byte> := [0x69, 0x6E, 0x74, 0x65, 0x72, 0x6E, 0x65, 0x74]

  lemma {:induction false} ExampleTokens(env: Env, trim: string -> string)
    requires env.tables == OmaCP(trim)
    ensures env.tables.startOf(0, 0xA4) == Some(("type", "NAPDEF")) && env.tables.startOf(0, 0x08) == Some(("name", "NAP-ADDRESS"))
    ensures env.tables.startOf(0, 0x06) == Some(("value", "")) && env.tables.valueOf(0, 0x06) == None
    ensures env.tables.trim == trim
  {
    assert NAMES_0[1] == "NAP-ADDRESS" && TYPES_0[4] == "NAPDEF";
    Runs0(0x08);
    assert WbxmlTables.In(NAMES_0, 0x07, 0x08) == Some(NAMES_0[1]);
    assert Starts0(0x08) == Some(("name", "NAP-ADDRESS"));
    assert Starts0(0x06) == Some(("value", ""));
    hide Values0, Starts0;
    Page0(0x06);
    Page0(0xA4);
  }

  lemma {:induction false} InternetIs()
    ensures Chars(INTERNET) == "internet"
  {
    var s, t := Chars(INTERNET), "internet";
    assert s[0] == t[0] && s[1] == t[1] && s[2] == t[2] && s[3] == t[3] && s[4] == t[4] && s[5] == t[5] && s[6] == t[6] && s[7] == t[7];
  }

  lemma {:induction false} NothingToTrim(s: string)
    requires s != "" && 'A' <= s[0] <= 'z' && 'A' <= s[|s| - 1] <= 'z'
    ensures TrimSpace(s) == s
  {
    hide Trim;
    TrimKeeps(s, IsSpace);
  }

  const NAPDEF := Attribute(false, 0, 0xA4, [])
  const NAP_ADDRESS := Attribute(false, 0, 0x08, [])
  const VALUE := Attribute(false, 0, 0x06, [Letters(INTERNET)])

  lemma {:induction false} ExampleKeys(env: Env)
    requires env.tables == OmaCP(TrimSpace)
    ensures AttrName(env, NAPDEF) == "type" && AttrValue(env, NAPDEF) == "NAPDEF"
    ensures AttrName(env, NAP_ADDRESS) == "name" && AttrValue(env, NAP_ADDRESS) == "NAP-ADDRESS"
  {
    hide OmaCP, TrimSpace, IsSpace, IsValue;
    ExampleTokens(env, TrimSpace);
    NothingToTrim("NAPDEF");
    NothingToTrim("NAP-ADDRESS");
    assert "NAPDEF" + "" == "NAPDEF" && "NAP-ADDRESS" + "" == "NAP-ADDRESS";
  }

  lemma {:induction false} ExampleValue(env: Env)
    requires env.tables == OmaCP(TrimSpace)
    ensures AttrName(env, VALUE) == "value" && AttrValue(env, VALUE) == "internet"
  {
    hide OmaCP, TrimSpace, IsSpace, Chars, FromTable, IsValue;
    ExampleTokens(env, TrimSpace);
    InternetIs();
    NothingToTrim("internet");
    assert VALUE.pieces[1..] == [];
    assert Spell(env, 0, VALUE.pieces) == Chars(INTERNET) + "" == "internet";
    assert "" + "internet" == "internet";
  }

  lemma {:induction false} ExampleIsValid(env: Env)
    requires env.tables == OmaCP(TrimSpace)
    ensures ValidAttributes(env, [NAPDEF], 0, false) && ValidAttributes(env, [NAP_ADDRESS, VALUE], 0, false)
  {
    ExampleTokens(env, TrimSpace);
    hide OmaCP, TrimSpace;
    assert [NAP_ADDRESS, VALUE][1..] == [VALUE] && [VALUE][1..] == [] && [NAPDEF][1..] == [];
    assert ValidAttributes(env, [], 0, true);
    assert ValidAttributes(env, [VALUE], 0, true);
  }

  function ExampleSetting(): Entries { Setting([NAP_ADDRESS, VALUE], [], NoMore) }

  function ExampleGroup(): Group { Group([NAPDEF], ExampleSetting()) }

  function ExamplePart(): Part { Wrapped([], Inner(ExampleGroup(), NoMore)) }

  lemma {:induction false} SettingOctets()
    ensures EncodeElem(SettingElem([NAP_ADDRESS, VALUE], [])) == [0x87, 0x08, 0x06, 0x03] + INTERNET + [0x00, 0x01]
  {
    hide EncodeAttrs;
    var name, value, text := StartToken(0x08), StartToken(0x06), InlineValue(INTERNET);
    assert [NAP_ADDRESS, VALUE][1..] == [VALUE] && [VALUE][1..] == [];
    assert PieceItems(VALUE.pieces) == [text];
    assert AttrItems([VALUE]) == [value] + [text];
    assert AttrItems([NAP_ADDRESS, VALUE]) == [name] + ([value] + [text]);
    assert [text] == [text] + [];
    Encodes(name, [value] + [text]);
    Encodes(value, [text]);
    Encodes(text, []);
    assert EncodeString(INTERNET) == [0x03] + (INTERNET + [0x00]);
  }

  lemma {:induction false} GroupOctets()
    ensures EncodeElem(GroupElem(ExampleGroup())) == [0xC6, 0xA4, 0x01] + EncodeElem(SettingElem([NAP_ADDRESS, VALUE], [])) + [0x01]
  {
    hide EncodeAttrs, SettingElem;
    var g := ExampleGroup();
    assert [NAPDEF][1..] == [] && AttrItems([NAPDEF]) == [StartToken(0xA4)] + [];
    Encodes(StartToken(0xA4), []);
    var elem := SettingElem([NAP_ADDRESS, VALUE], []);
    assert EntryItems(g.entries) == More(Child(elem), Done);
    assert EncodeItems(More(Child(elem), Done)) == EncodeElem(elem) + [0x01] by { hide EncodeElem; }
    assert TagOctet(GroupElem(g)) == 0xC6;
  }

  lemma {:induction false} PartOctets()
    ensures EncodeTops(PartTops([ExamplePart()])) == [0x45] + EncodeElem(GroupElem(ExampleGroup())) + [0x01]
  {
    hide GroupElem;
    var elem := GroupElem(ExampleGroup());
    var part := ExamplePart();
    assert [part][1..] == [] && EntryItems(part.entries) == More(Child(elem), Done);
    var top := PartTop(part);
    assert PartTops([part]) == [top] && [top][1..] == [];
    assert EncodeItems(More(Child(elem), Done)) == EncodeElem(elem) + [0x01] by { hide EncodeElem; }
    assert TagOctet(top.elem) == 0x45;
  }

  lemma {:induction false} HeaderOctets(body: seq<byte>)
    ensures [0x03] + (Encoded(0x0B, 1) + (Encoded(0x6A, 1) + (Encoded(0, 1) + ([] + (body + []))))) == [0x03, 0x0B, 0x6A, 0x00] + body
  {
    assert Encoded(0x0B, 1) == [0x0B] && Encoded(0x6A, 1) == [0x6A] && Encoded(0, 1) == [0x00];
    assert [] + (body + []) == body;
  }

  lemma {:induction false} ExampleOctets()
    ensures DocumentOf(3, 0x6A, [], [ExamplePart()], [], 1, 1, 1) ==
            [0x03, 0x0B, 0x6A, 0x00, 0x45, 0xC6, 0xA4, 0x01, 0x87, 0x08, 0x06, 0x03,
             0x69, 0x6E, 0x74, 0x65, 0x72, 0x6E, 0x65, 0x74, 0x00, 0x01, 0x01, 0x01]
  {
    hide EncodeElem, EncodeTops, PartTops, GroupElem, SettingElem, Encoded;
    SettingOctets();
    GroupOctets();
    PartOctets();
    HeaderOctets(EncodeTops(PartTops([ExamplePart()])));
  }

  lemma {:induction false} ExampleParts(env: Env)
    requires env.tables == OmaCP(TrimSpace)
    ensures ValidParts(env, [ExamplePart()], Pages(0, 0))
  {
    hide OmaCP, ValidAttributes;
    ExampleIsValid(env);
    assert [ExamplePart()][1..] == [];
    var e := ExampleSetting();
    assert ValidEntries(env, NoMore, Pages(0, 0));
    assert ValidEntries(env, e, Pages(0, 0));
    assert ValidGroup(env, ExampleGroup(), Pages(0, 0));
    var inner := Inner(ExampleGroup(), NoMore);
    assert ValidEntries(env, NoMore, AfterGroup(ExampleGroup(), Pages(0, 0)));
    assert ValidEntries(env, inner, Pages(0, 0));
    assert ValidPart(env, ExamplePart(), Pages(0, 0));
    var parts := [ExamplePart()];
    assert parts[1..] == [] && ValidParts(env, parts[1..], AfterPart(parts[0], Pages(0, 0)));
  }

  lemma {:induction false} ExampleLast(env: Env)
    requires env.tables == OmaCP(TrimSpace)
    ensures LastOf(env, [NAP_ADDRESS, VALUE], "name") == Some("NAP-ADDRESS")
    ensures LastOf(env, [NAP_ADDRESS, VALUE], "value") == Some("internet")
    ensures LastOf(env, [NAPDEF], "type") == Some("NAPDEF") && env.tables.trim("NAP-ADDRESS") == "NAP-ADDRESS"
  {
    hide OmaCP, TrimSpace, AttrName, AttrValue;
    ExampleTokens(env, TrimSpace);
    NothingToTrim("NAP-ADDRESS");
    ExampleKeys(env);
    ExampleValue(env);
    assert [NAP_ADDRESS, VALUE][1..] == [VALUE] && [VALUE][1..] == [] && [NAPDEF][1..] == [];
    assert LastOf(env, [], "name") == None && LastOf(env, [], "value") == None;
    assert LastOf(env, [VALUE], "name") == None && LastOf(env, [VALUE], "value") == Some("internet");
  }

  lemma {:induction false} ExampleSays(env: Env, nodes: seq<Node>)
    requires env.tables == OmaCP(TrimSpace) && SayParts(env, nodes, [ExamplePart()])
    ensures nodes == [Node("wap-provisioningdoc", map[], [Node("NAPDEF", map["NAP-ADDRESS" := "internet"], [])])]
  {
    hide OmaCP, TrimSpace, LastOf;
    ExampleLast(env);
    var e := Inner(ExampleGroup(), NoMore);
    assert !SayEntries(env, [], e);
    assert |nodes| == 1 && SayPart(env, [nodes[0]], ExamplePart());
    var subs := nodes[0].subs;
    assert SayEntries(env, subs, e) && |subs| == 1;
    var m := subs[0];
    assert Says(env, m, ExampleGroup());
    assert SayInner(env, m.subs, ExampleSetting()) && m.subs == [];
    forall name ensures LastSetting(env, ExampleSetting(), name) == if name == "NAP-ADDRESS" then Some("internet") else None {
      assert LastSetting(env, NoMore, name) == None;
    }
    assert m.params == map["NAP-ADDRESS" := "internet"];
    assert m == Node("NAPDEF", map["NAP-ADDRESS" := "internet"], []) && subs == [m];
    assert nodes == [Node("wap-provisioningdoc", map[], [m])];
  }

  /** A document with one group NAPDEF, in which NAP-ADDRESS is set to internet: its octets and its nodes. */
  lemma {:induction false} Example()
    ensures Decode([0x03, 0x0B, 0x6A, 0x00, 0x45, 0xC6, 0xA4, 0x01, 0x87, 0x08, 0x06, 0x03,
                    0x69, 0x6E, 0x74, 0x65, 0x72, 0x6E, 0x65, 0x74, 0x00, 0x01, 0x01, 0x01], OmaCP(TrimSpace))
            == Config(3, [Node("wap-provisioningdoc", map[], [Node("NAPDEF", map["NAP-ADDRESS" := "internet"], [])])])
  {
    hide OmaCP, Decode, DocumentOf, ValidParts, SayParts, KeepsCapitals, ExamplePart;
    var env := Env([], OmaCP(TrimSpace));
    ExampleOctets();
    ExampleParts(env);
    TrimKeepsCapitals();
    DecodesWhatIsSaid(TrimSpace, 3, 0x6A, [], [ExamplePart()], [], 1, 1, 1);
    var d := Decode(DocumentOf(3, 0x6A, [], [ExamplePart()], [], 1, 1, 1), OmaCP(TrimSpace));
    ExampleSays(env, if d.Config? then d.nodes else []);
  }
}
