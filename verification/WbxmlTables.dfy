/** The token tables of OMA client provisioning, and the tokens that stand in two of them: when the
    reader takes such a token as it was meant and when it does not. */
module WbxmlTables {
  import opened Wrappers
  import opened Bytes
  import opened WbxmlReader
  import opened WbxmlRoundTrip

  // ---------------------------------------------------------------- the tables

  /** Names of parameters by code page, from token 0x07 on in page 0. */
  const NAMES_0: seq<string> := FIRST_NAMES + SECOND_NAMES + THIRD_NAMES + LAST_NAMES
  const FIRST_NAMES: seq<string> := [
    "NAME", "NAP-ADDRESS", "NAP-ADDRTYPE", "CALLTYPE", "VALIDUNTIL", "AUTHTYPE", "AUTHNAME", "AUTHSECRET",
    "LINGER", "BEARER", "NAPID", "COUNTRY", "NETWORK", "INTERNET", "PROXY-ID", "PROXY-PROVIDER-ID"]
  const SECOND_NAMES: seq<string> := [
    "DOMAIN", "PROVURL", "PXAUTH-TYPE", "PXAUTH-ID", "PXAUTH-PW", "STARTPAGE", "BASAUTH-ID", "BASAUTH-PW",
    "PUSHENABLED", "PXADDR", "PXADDRTYPE", "TO-NAPID", "PORTNBR", "SERVICE", "LINKSPEED", "DNLINKSPEED"]
  const THIRD_NAMES: seq<string> := [
    "LOCAL-ADDR", "LOCAL-ADDRTYPE", "CONTEXT-ALLOW", "TRUST", "MASTER", "SID", "SOC", "WSP-VERSION",
    "PHYSICAL-PROXY-ID", "CLIENT-ID", "DELIVERY-ERR-SDU", "DELIVERY-ORDER", "TRAFFIC-CLASS", "MAX-SDU-SIZE",
    "MAX-BITRATE-UPLINK", "MAX-BITRATE-DNLINK"]
  const LAST_NAMES: seq<string> := [
    "RESIDUAL-BER", "SDU-ERROR-RATIO", "TRAFFIC-HANDL-PRIO", "TRANSFER-DELAY", "GUARANTEED-BITRATE-UPLINK",
    "GUARANTEED-BITRATE-DNLINK", "PXADDR-FQDN", "PROXY-PW", "PPGAUTH-TYPE"]

  /** Page 1 has two names at 0x07 and the others from 0x10 on. */
  const NAMES_1: seq<string> := ["NAME", "INTERNET"]
  const APPLICATION_NAMES: seq<string> := [
    "STARTPAGE", "TO-NAPID", "PORTNBR", "SERVICE", "AACCEPT", "AAUTHDATA", "AAUTHLEVEL", "AAUTHNAME",
    "AAUTHSECRET", "AAUTHTYPE", "ADDR", "ADDRTYPE", "APPID", "APROTOCOL", "PROVIDER-ID", "TO-PROXY", "URI", "RULE"]

  const ADDRESSES: seq<string> := ["IPV4", "IPV6", "E164", "ALPHA", "APN", "SCODE", "TETRA-ITSI", "MAN"]
  const CALLS: seq<string> := [
    "ANALOG-MODEM", "V.120", "V.110", "X.31", "BIT-TRANSPARENT", "DIRECT-ASYNCHRONOUS-DATA-SERVICE"]
  const AUTHENTICATIONS: seq<string> := ["PAP", "CHAP", "HTTP-BASIC", "HTTP-DIGEST", "WTLS-SS", "MD5"]
  const BEARERS: seq<string> := [
    "GSM-USSD", "GSM-SMS", "ANSI-136-GUTS", "IS-95-CDMA-SMS", "IS-95-CDMA-CSD", "IS-95-CDMA-PACKET",
    "ANSI-136-CSD", "ANSI-136-GPRS", "GSM-CSD", "GSM-GPRS", "AMPS-CDPD", "PDC-CSD", "PDC-PACKET", "IDEN-SMS",
    "IDEN-CSD", "IDEN-PACKET", "FLEX/REFLEX", "PHS-SMS", "PHS-CSD", "TETRA-SDS", "TETRA-PACKET",
    "ANSI-136-GHOST", "MOBITEX-MPAK", "CDMA2000-1X-SIMPLE-IP", "CDMA2000-1X-MOBILE-IP"]
  const SERVICES: seq<string> := [
    "CL-WSP", "CO-WSP", "CL-SEC-WSP", "CO-SEC-WSP", "CL-SEC-WTA", "CO-SEC-WTA", "OTA-HTTP-TO",
    "OTA-HTTP-TLS-TO", "OTA-HTTP-PO", "OTA-HTTP-TLS-PO"]
  const TYPES_0: seq<string> := [
    "PXLOGICAL", "PXPHYSICAL", "PORT", "VALIDITY", "NAPDEF", "BOOTSTRAP", "VENDORCONFIG", "CLIENTIDENTITY",
    "PXAUTHINFO", "NAPAUTHINFO", "ACCESS"]

  const APPLICATION_SERVICES: seq<string> := [
    "APSERVICE", "OTA-HTTP-TO", "OTA-HTTP-TLS-TO", "OTA-HTTP-PO", "OTA-HTTP-TLS-PO", "25", "143", "993", "110",
    "995", "119", "563", "209"]
  const APPLICATION_AUTHENTICATIONS: seq<string> := [",", "HTTP-", "BASIC", "DIGEST"]
  const APPLICATION_IDS: seq<string> := ["w2", "w4", "w5", "w7"]
  const TYPES_1: seq<string> := ["PORT", "CLIENTIDENTITY", "APPADDR", "APPAUTH", "APPLICATION", "RESOURCE"]

  const TYPE: byte := 0xA0

  /** The entry of b in a run of entries that starts at token `first`. */
  function In(run: seq<string>, first: byte, b: byte): Option<string> {
    if first <= b && (b - first) as int < |run| then Some(run[b - first]) else None
  }

  function Or<T>(a: Option<T>, b: Option<T>): Option<T> {
    if a.Some? then a else b
  }

  function Values0(b: byte): Option<string> {
    Or(In(ADDRESSES, 0x45, b), Or(In(CALLS, 0x50, b), Or(In(AUTHENTICATIONS, 0x60, b), Or(In(BEARERS, 0x6A, b),
    Or(In(["AUTOBAUDING"], 0x85, b), Or(In(SERVICES, 0x8A, b), In(TYPES_0, TYPE, b)))))))
  }

  function Values1(b: byte): Option<string> {
    Or(In(["IPV4", "IPV6"], 0x45, b), Or(In(APPLICATION_SERVICES, 0x50, b), Or(In(APPLICATION_AUTHENTICATIONS, 0x60, b),
    Or(In(APPLICATION_IDS, 0x90, b), In(TYPES_1, TYPE, b)))))
  }

  function Named(name: string, value: Option<string>): Option<(string, string)> {
    if value.Some? then Some((name, value.value)) else None
  }

  /** 0x05 and 0x06 start a name and a value of their own. */
  function Bare(b: byte): Option<(string, string)> {
    if b == 0x05 then Some(("name", "")) else if b == 0x06 then Some(("value", "")) else None
  }

  /** The start tables after init() has put the characteristic types of the value tables into them. */
  function Starts0(b: byte): Option<(string, string)> {
    Or(Bare(b), Or(Named("name", In(NAMES_0, 0x07, b)), Named("type", In(TYPES_0, TYPE, b))))
  }

  function Starts1(b: byte): Option<(string, string)> {
    Or(Bare(b), Or(Named("name", In(NAMES_1, 0x07, b)),
    Or(Named("name", In(APPLICATION_NAMES, 0x10, b)), Named("type", In(TYPES_1, TYPE, b)))))
  }

  /** The reader's tables. A white-space trimming is left open. */
  function OmaCP(trim: string -> string): Tables {
    Tables(
      (page: byte, id: byte) =>
        if page <= 1 && id == 0x06 then Characteristic
        else if page <= 1 && id == 0x07 then Parm
        else if page == 0 && id == 0x05 then Document
        else OtherTag,
      (page: byte, b: byte) => if page == 0 then Starts0(b) else if page == 1 then Starts1(b) else None,
      (page: byte, b: byte) => if page == 0 then Values0(b) else if page == 1 then Values1(b) else None,
      trim)
  }

  lemma {:induction false} NamesEnd()
    ensures NAMES_0[0] == "NAME" && NAMES_0[56] == "PPGAUTH-TYPE"
    ensures APPLICATION_NAMES[0] == "STARTPAGE" && APPLICATION_NAMES[17] == "RULE"
  {
  }

  /** Where the runs of the start tables begin and end. */
  lemma {:induction false} StartsOfPage0()
    ensures Starts0(0x05) == Some(("name", "")) && Starts0(0x06) == Some(("value", "")) && Starts0(0x07) == Some(("name", "NAME"))
    ensures Starts0(0x3F) == Some(("name", "PPGAUTH-TYPE")) && Starts0(0x40) == None
    ensures Starts0(0xA0) == Some(("type", "PXLOGICAL")) && Starts0(0xAA) == Some(("type", "ACCESS")) && Starts0(0xAB) == None
  {
    Runs0(0xA0);
    NamesEnd();
  }

  lemma {:induction false} StartsOfPage1()
    ensures Starts1(0x05) == Some(("name", "")) && Starts1(0x06) == Some(("value", "")) && Starts1(0x07) == Some(("name", "NAME"))
    ensures Starts1(0x08) == Some(("name", "INTERNET")) && Starts1(0x09) == None && Starts1(0x0F) == None
    ensures Starts1(0x10) == Some(("name", "STARTPAGE")) && Starts1(0x21) == Some(("name", "RULE")) && Starts1(0x22) == None
    ensures Starts1(0xA0) == Some(("type", "PORT")) && Starts1(0xA5) == Some(("type", "RESOURCE")) && Starts1(0xA6) == None
  {
    Runs1(0xA0);
    NamesEnd();
  }

  /** And those of the value tables. */
  lemma {:induction false} ValuesOfPage0()
    ensures Values0(0x44) == None && Values0(0x45) == Some("IPV4") && Values0(0x4C) == Some("MAN") && Values0(0x4D) == None
    ensures Values0(0x50) == Some("ANALOG-MODEM") && Values0(0x55) == Some("DIRECT-ASYNCHRONOUS-DATA-SERVICE") && Values0(0x56) == None
    ensures Values0(0x60) == Some("PAP") && Values0(0x65) == Some("MD5") && Values0(0x66) == None
    ensures Values0(0x6A) == Some("GSM-USSD") && Values0(0x82) == Some("CDMA2000-1X-MOBILE-IP") && Values0(0x83) == None
    ensures Values0(0x85) == Some("AUTOBAUDING") && Values0(0x86) == None
    ensures Values0(0x8A) == Some("CL-WSP") && Values0(0x93) == Some("OTA-HTTP-TLS-PO") && Values0(0x94) == None
    ensures Values0(0xA0) == Some("PXLOGICAL") && Values0(0xAA) == Some("ACCESS") && Values0(0xAB) == None
  {
    Runs0(0xA0);
    assert BEARERS[24] == "CDMA2000-1X-MOBILE-IP" && BEARERS[0] == "GSM-USSD";
  }

  lemma {:induction false} ValuesOfPage1()
    ensures Values1(0x45) == Some("IPV4") && Values1(0x46) == Some("IPV6") && Values1(0x47) == None
    ensures Values1(0x50) == Some("APSERVICE") && Values1(0x5C) == Some("209") && Values1(0x5D) == None
    ensures Values1(0x60) == Some(",") && Values1(0x63) == Some("DIGEST") && Values1(0x64) == None
    ensures Values1(0x90) == Some("w2") && Values1(0x93) == Some("w7") && Values1(0x94) == None
    ensures Values1(0xA0) == Some("PORT") && Values1(0xA5) == Some("RESOURCE") && Values1(0xA6) == None
  {
    Runs1(0xA0);
  }

  // ---------------------------------------------------------------- tokens of both tables

  /** The characteristic types of a page. */
  predicate IsType(page: byte, b: byte) {
    (page == 0 && TYPE <= b <= 0xAA) || (page == 1 && TYPE <= b <= 0xA5)
  }

  /** The runs of page 0 end before the next begins, and no type is empty. */
  lemma Runs0(b: byte)
    ensures |NAMES_0| == 57 && |ADDRESSES| == 8 && |CALLS| == 6 && |AUTHENTICATIONS| == 6 && |BEARERS| == 25
    ensures |SERVICES| == 10 && |TYPES_0| == 11
    ensures TYPE <= b <= 0xAA ==> TYPES_0[b - TYPE] != ""
  {
  }

  lemma Runs1(b: byte)
    ensures |NAMES_1| == 2 && |APPLICATION_NAMES| == 18 && |APPLICATION_SERVICES| == 13
    ensures |APPLICATION_AUTHENTICATIONS| == 4 && |APPLICATION_IDS| == 4 && |TYPES_1| == 6
    ensures TYPE <= b <= 0xA5 ==> TYPES_1[b - TYPE] != ""
  {
  }

  lemma Page0(b: byte)
    ensures TYPE <= b <= 0xAA ==>
              Values0(b) == Some(TYPES_0[b - TYPE]) && Starts0(b) == Some(("type", TYPES_0[b - TYPE])) && TYPES_0[b - TYPE] != ""
    ensures !(TYPE <= b <= 0xAA) ==> Starts0(b).None? || Values0(b).None?
    ensures Starts0(b).Some? && Starts0(b).value.0 == "type" ==> TYPE <= b <= 0xAA
  {
    Runs0(b);
  }

  lemma Page1(b: byte)
    ensures TYPE <= b <= 0xA5 ==>
              Values1(b) == Some(TYPES_1[b - TYPE]) && Starts1(b) == Some(("type", TYPES_1[b - TYPE])) && TYPES_1[b - TYPE] != ""
    ensures !(TYPE <= b <= 0xA5) ==> Starts1(b).None? || Values1(b).None?
    ensures Starts1(b).Some? && Starts1(b).value.0 == "type" ==> TYPE <= b <= 0xA5
  {
    Runs1(b);
  }

  lemma TypeEntries(env: Env, trim: string -> string, page: byte, b: byte)
    requires env.tables == OmaCP(trim) && IsType(page, b)
    ensures IsStart(env, page, b) && IsValue(env, page, b) && !IsGlobal(b)
    ensures env.tables.startOf(page, b) == Some(("type", env.tables.valueOf(page, b).value))
  {
    hide Values0, Values1, Starts0, Starts1;
    Page0(b);
    Page1(b);
  }

  /** The tokens of both tables are the characteristic types, and as start tokens they start "type"
      with the value they have. */
  lemma BothTablesAreTypes(env: Env, trim: string -> string, page: byte, b: byte)
    requires env.tables == OmaCP(trim)
    ensures IsStart(env, page, b) && IsValue(env, page, b) <==> IsType(page, b)
    ensures IsStart(env, page, b) && env.tables.startOf(page, b).value.0 == "type" ==> IsType(page, b)
  {
    hide Values0, Values1, Starts0, Starts1;
    Page0(b);
    Page1(b);
  }

  /** An open "type" has a value: nothing but a characteristic type opens one. */
  predicate Typed(a: Attrs) {
    a.name == "type" ==> a.value != ""
  }

  lemma StaysTyped(env: Env, trim: string -> string, page: byte, b: byte, a: Attrs, s: string)
    requires env.tables == OmaCP(trim) && Typed(a)
    ensures Typed(NO_ATTRS) && Typed(Append(a, s)) && Typed(Token(env, page, b, a))
  {
    hide OmaCP;
    BothTablesAreTypes(env, trim, page, b);
    if IsType(page, b) { TypeEntries(env, trim, page, b); }
  }

  /** When a characteristic type is read as meant: as a start exactly while no attribute is open, and
      as a value exactly while one is. */
  lemma TypeReadAsMeant(env: Env, trim: string -> string, page: byte, b: byte, a: Attrs)
    requires env.tables == OmaCP(trim) && IsType(page, b) && Typed(a)
    ensures IsStart(env, page, b) && IsValue(env, page, b)
    ensures Token(env, page, b, a) == StartAttr(env, page, b, a) <==> a.name == ""
    ensures Token(env, page, b, a) == Append(a, env.tables.valueOf(page, b).value) <==> a.name != ""
  {
    hide OmaCP;
    TypeEntries(env, trim, page, b);
    assert env.tables.valueOf(page, b).value != "";
  }

  /** In general: a start or value token of its table is read as meant if and only if the round trip
      counts it as valid where it stands. */
  lemma ReadAsMeantIff(env: Env, trim: string -> string, item: AttrItem, page: byte, a: Attrs)
    requires env.tables == OmaCP(trim) && Typed(a)
    requires match item {
               case StartToken(b) => !IsGlobal(b) && IsStart(env, page, b)
               case ValueToken(b) => !IsGlobal(b) && IsValue(env, page, b)
               case _ => false
             }
    ensures Token(env, page, item.token, a) == Apply(env, item, page, a).1 <==> ValidAttrItem(env, item, page, a)
  {
    hide OmaCP, IsStart, IsValue, StartAttr;
    BothTablesAreTypes(env, trim, page, item.token);
    if IsType(page, item.token) {
      TypeReadAsMeant(env, trim, page, item.token, a);
    }
  }

  lemma NameAndType(env: Env, trim: string -> string)
    requires env.tables == OmaCP(trim)
    ensures IsStart(env, 0, 0x05) && !IsValue(env, 0, 0x05) && IsStart(env, 0, 0xA4) && IsValue(env, 0, 0xA4)
    ensures env.tables.startOf(0, 0x05) == Some(("name", "")) && env.tables.startOf(0, 0xA4) == Some(("type", "NAPDEF"))
    ensures env.tables.valueOf(0, 0xA4) == Some("NAPDEF") && env.tables.trim == trim
  {
    assert Starts0(0x05) == Some(("name", ""));
    hide Values0, Starts0;
    Page0(0x05);
    Page0(0xA4);
    assert TYPES_0[4] == "NAPDEF";
  }

  lemma OneToken(env: Env, page: byte, b: byte, a: Attrs, more: seq<byte>)
    requires !IsGlobal(b)
    ensures Attributes(env, [b] + more, page, a) == Attributes(env, more, page, Token(env, page, b, a))
  {
    assert ([b] + more)[1..] == more;
  }

  lemma AtEnd(env: Env, page: byte, a: Attrs)
    ensures Attributes(env, [END_TOKEN], page, a).0 == Flush(env, a).done
  {
  }

  lemma Encodes(item: AttrItem, items: seq<AttrItem>)
    ensures EncodeAttrs([item] + items) == EncodeAttrItem(item) + EncodeAttrs(items)
    ensures EncodeAttrs([]) == [END_TOKEN]
  {
    assert ([item] + items)[1..] == items;
  }

  lemma {:induction false} Means(env: Env, item: AttrItem, items: seq<AttrItem>, page: byte, a: Attrs)
    ensures AttrsMean(env, [item] + items, page, a) ==
            var (page', a') := Apply(env, item, page, a); AttrsMean(env, items, page', a')
    ensures AttrsMean(env, [], page, a) == (Flush(env, a).done, page)
  {
    assert ([item] + items)[1..] == items;
  }

  /** A name, then the type NAPDEF: the reader makes "NAPDEF" the name's value and there is no type. */
  lemma StartReadAsValue(strings: seq<byte>, trim: string -> string)
    ensures var env, items := Env(strings, OmaCP(trim)), [StartToken(0x05), StartToken(0xA4)];
            && Attributes(env, EncodeAttrs(items), 0, NO_ATTRS).0 == map["name" := trim("NAPDEF")]
            && AttrsMean(env, items, 0, NO_ATTRS).0 == map["name" := trim(""), "type" := trim("NAPDEF")]
            && "type" !in Attributes(env, EncodeAttrs(items), 0, NO_ATTRS).0
  {
    hide OmaCP, IsStart, IsValue, Attributes, AttrsMean, EncodeAttrs;
    var env, name, type_ := Env(strings, OmaCP(trim)), StartToken(0x05), StartToken(0xA4);
    var open := Attrs(map[], "name", "");
    NameAndType(env, trim);
    assert "" + "NAPDEF" == "NAPDEF";
    assert [name, type_] == [name] + ([type_] + []);
    Encodes(name, [type_] + []);
    Encodes(type_, []);
    OneToken(env, 0, 0x05, NO_ATTRS, [0xA4] + [END_TOKEN]);
    OneToken(env, 0, 0xA4, open, [END_TOKEN]);
    AtEnd(env, 0, Attrs(map[], "name", "NAPDEF"));
    Means(env, name, [type_] + [], 0, NO_ATTRS);
    Means(env, type_, [], 0, open);
    Means(env, type_, [], 0, Attrs(map["name" := trim("")], "type", "NAPDEF"));
  }

  /** The value NAPDEF with no attribute open: it means nothing, and the reader makes it a type. */
  lemma ValueReadAsStart(strings: seq<byte>, trim: string -> string)
    ensures var env, items := Env(strings, OmaCP(trim)), [ValueToken(0xA4)];
            && Attributes(env, EncodeAttrs(items), 0, NO_ATTRS).0 == map["type" := trim("NAPDEF")]
            && AttrsMean(env, items, 0, NO_ATTRS).0 == map[]
  {
    hide OmaCP, IsStart, IsValue, Attributes, AttrsMean, EncodeAttrs;
    var env, value := Env(strings, OmaCP(trim)), ValueToken(0xA4);
    NameAndType(env, trim);
    assert [value] == [value] + [];
    Encodes(value, []);
    OneToken(env, 0, 0xA4, NO_ATTRS, [END_TOKEN]);
    AtEnd(env, 0, Attrs(map[], "type", "NAPDEF"));
    Means(env, value, [], 0, NO_ATTRS);
    assert "" + "NAPDEF" == "NAPDEF";
    Means(env, value, [], 0, Attrs(map[], "", "NAPDEF"));
  }
}
