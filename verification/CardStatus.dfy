/** The QMI card-status structure and the two walkers over it: one lists the applications, the
    other finds the active slot. */
module CardStatus {
  import opened Wrappers
  import opened Bytes
  import opened Qmi

  // ---------------------------------------------------------------- the structure

  datatype App = App(info: seq<byte>, aid: seq<byte>, pins: seq<byte>)

  datatype Slot = Slot(info: seq<byte>, apps: seq<App>)

  datatype AppInfo = AppInfo(typ: byte, aid: seq<byte>)

  predicate ValidApp(a: App) { |a.info| == 6 && |a.aid| < 256 && |a.pins| == 7 }

  predicate ValidSlot(s: Slot) {
    |s.info| == 5 && |s.apps| < 256 && forall i :: 0 <= i < |s.apps| ==> ValidApp(s.apps[i])
  }

  predicate ValidSlots(ss: seq<Slot>) {
    forall i :: 0 <= i < |ss| ==> ValidSlot(ss[i])
  }

  function EncodeApp(a: App): seq<byte> {
    a.info + [|a.aid| % 256] + a.aid + a.pins
  }

  function EncodeApps(apps: seq<App>): seq<byte> {
    if apps == [] then [] else EncodeApp(apps[0]) + EncodeApps(apps[1..])
  }

  function EncodeSlot(s: Slot): seq<byte> {
    s.info + [|s.apps| % 256] + EncodeApps(s.apps)
  }

  function EncodeSlots(ss: seq<Slot>): seq<byte> {
    if ss == [] then [] else EncodeSlot(ss[0]) + EncodeSlots(ss[1..])
  }

  /** What the list of applications should be. */
  function InfosOf(apps: seq<App>): (infos: seq<AppInfo>)
    requires forall i :: 0 <= i < |apps| ==> ValidApp(apps[i])
    ensures |infos| == |apps|
    ensures forall i :: 0 <= i < |infos| ==> ValidApp(apps[i]) && infos[i] == AppInfo(apps[i].info[0], apps[i].aid)
  {
    if apps == [] then []
    else
      assert ValidApp(apps[0]);
      [AppInfo(apps[0].info[0], apps[0].aid)] + InfosOf(apps[1..])
  }

  function Flatten(ss: seq<Slot>): seq<AppInfo>
    requires ValidSlots(ss)
  {
    if ss == [] then [] else InfosOf(ss[0].apps) + Flatten(ss[1..])
  }

  /** Slot by slot. */
  lemma {:induction false} FlattenInOrder(ss: seq<Slot>, ts: seq<Slot>)
    requires ValidSlots(ss) && ValidSlots(ts)
    ensures ValidSlots(ss + ts) && Flatten(ss + ts) == Flatten(ss) + Flatten(ts)
  {
    if ss == [] {
      assert ss + ts == ts;
    } else {
      hide ValidSlot, InfosOf, Flatten, ValidSlots, FirstActive;
      var s, rest := ss[0], ss[1..];
      assert ss == [s] + rest && ss + ts == [s] + (rest + ts);
      SlotsCons(s, rest);
      FlattenInOrder(rest, ts);
      FlattenCons(s, rest, 0);
      FlattenCons(s, rest + ts, 0);
    }
  }

  /** One slot's applications, each with its type octet and its identifier. */
  lemma {:induction false} FlattenOne(s: Slot, i: nat)
    requires ValidSlot(s) && i < |s.apps|
    ensures ValidSlots([s]) && |Flatten([s])| == |s.apps| && |s.apps[i].info| == 6
    ensures Flatten([s])[i] == AppInfo(s.apps[i].info[0], s.apps[i].aid)
  {
    assert [s][1..] == [] && Flatten([s]) == InfosOf(s.apps) + [];
    assert ValidApp(s.apps[i]);
  }

  /** Where the parts of an application and of a slot stand. */
  lemma {:induction false} AppLayout(a: App)
    requires |a.info| == 6 && |a.pins| == 7 && |a.aid| < 256
    ensures ValidApp(a)
    ensures var e, n := EncodeApp(a), |a.aid|;
            |e| == 14 + n && e[..6] == a.info && e[6] == n && e[7..7 + n] == a.aid && e[7 + n..] == a.pins
  {
  }

  lemma {:induction false} SlotLayout(s: Slot)
    requires |s.info| == 5 && |s.apps| < 256 && forall i :: 0 <= i < |s.apps| ==> ValidApp(s.apps[i])
    ensures ValidSlot(s)
    ensures var e := EncodeSlot(s); |e| >= 6 && e[..5] == s.info && e[5] == |s.apps| && e[6..] == EncodeApps(s.apps)
  {
    hide ValidApp;
  }

  datatype Active = Known(slot: byte, byIndex: bool) | Unknown
                  | SlotTruncated | AppTruncated | AidTruncated
                  | StatusTooShort | StatusNotFound | NotAccepted(verdict: Verdict)

  predicate IsActive(s: Slot)
    requires |s.info| == 5
  {
    s.info[0] == 0x01 && s.info[1] == 0x01
  }

  function SlotNumber(s: Slot, index: nat): byte
    requires |s.info| == 5
  {
    if s.info[4] != 0 then s.info[4] else (index + 1) % 256
  }

  /** What the active slot should be: the first of these slots, the first numbered `index`. */
  function FirstActive(ss: seq<Slot>, index: nat): Active
    requires ValidSlots(ss)
  {
    if ss == [] then Unknown
    else if IsActive(ss[0]) then Known(SlotNumber(ss[0], index), ss[0].info[4] == 0)
    else FirstActive(ss[1..], index + 1)
  }

  /** Card and slot states, the first two octets of a slot, are both 1. */
  predicate BothPresent(s: Slot) {
    |s.info| == 5 && s.info[..2] == [1, 1]
  }

  /** The slot returned is the first that is active: its logical slot, the last octet before its applications, or
      its place, counted from 1 in an octet, when that is 0. */
  lemma {:induction false} FirstActiveIsFirst(ss: seq<Slot>, i: nat)
    requires ValidSlots(ss) && i < |ss| && BothPresent(ss[i]) && forall j :: 0 <= j < i ==> !BothPresent(ss[j])
    ensures var logical := ss[i].info[4];
            FirstActive(ss, 0) == if logical == 0 then Known((i + 1) % 256, true) else Known(logical, false)
  {
    FirstActiveFrom(ss, 0, i);
  }

  lemma {:induction false} FirstActiveFrom(ss: seq<Slot>, index: nat, i: nat)
    requires ValidSlots(ss) && i < |ss| && IsActive(ss[i])
    requires forall j :: 0 <= j < i ==> !IsActive(ss[j])
    ensures FirstActive(ss, index) == Known(SlotNumber(ss[i], index + i), ss[i].info[4] == 0)
  {
    if i > 0 {
      hide ValidSlot, SlotNumber, IsActive;
      assert !IsActive(ss[0]);
      assert ss[1..][i - 1] == ss[i];
      assert forall j :: 0 <= j < i - 1 ==> ss[1..][j] == ss[j + 1];
      FirstActiveFrom(ss[1..], index + 1, i - 1);
    }
  }

  lemma {:induction false} NoneActive(ss: seq<Slot>, index: nat)
    requires ValidSlots(ss)
    ensures FirstActive(ss, index) == Unknown <==> forall i :: 0 <= i < |ss| ==> !BothPresent(ss[i])
  {
    forall i | 0 <= i < |ss| ensures BothPresent(ss[i]) <==> IsActive(ss[i]) {
      assert ss[i].info[..2] == [ss[i].info[0], ss[i].info[1]];
    }
    if ss != [] {
      hide ValidSlot, SlotNumber, IsActive;
      NoneActive(ss[1..], index + 1);
      assert forall i :: 0 < i < |ss| ==> ss[1..][i - 1] == ss[i];
    }
  }

  // ---------------------------------------------------------------- reading it back

  function TakeApp(rest: seq<byte>): (r: Option<(App, seq<byte>)>) {
    if |rest| < 7 || 14 + rest[6] as int > |rest| then None
    else
      var n := rest[6];
      Some((App(rest[..6], rest[7..7 + n], rest[7 + n..14 + n]), rest[14 + n..]))
  }

  function TakeApps(rest: seq<byte>, n: nat): (r: Option<(seq<App>, seq<byte>)>)
    decreases n
  {
    if n == 0 then Some(([], rest))
    else
      match TakeApp(rest)
      case None => None
      case Some((a, more)) =>
        match TakeApps(more, n - 1)
        case None => None
        case Some((apps, left)) => Some(([a] + apps, left))
  }

  function TakeSlot(rest: seq<byte>): (r: Option<(Slot, seq<byte>)>) {
    if |rest| < 6 then None
    else
      match TakeApps(rest[6..], rest[5])
      case None => None
      case Some((apps, more)) => Some((Slot(rest[..5], apps), more))
  }

  function TakeSlots(rest: seq<byte>, n: nat): (r: Option<(seq<Slot>, seq<byte>)>)
    decreases n
  {
    if n == 0 then Some(([], rest))
    else
      match TakeSlot(rest)
      case None => None
      case Some((s, more)) =>
        match TakeSlots(more, n - 1)
        case None => None
        case Some((ss, left)) => Some(([s] + ss, left))
  }

  lemma AppReads(a: App, more: seq<byte>)
    requires ValidApp(a)
    ensures TakeApp(EncodeApp(a) + more) == Some((a, more))
  {
    var s, n := EncodeApp(a) + more, |a.aid|;
    assert s[..6] == a.info && s[6] == n;
    assert s[7..7 + n] == a.aid && s[7 + n..14 + n] == a.pins && s[14 + n..] == more;
  }

  lemma {:induction false} AppsRead(apps: seq<App>, more: seq<byte>)
    requires forall i :: 0 <= i < |apps| ==> ValidApp(apps[i])
    ensures TakeApps(EncodeApps(apps) + more, |apps|) == Some((apps, more))
  {
    if apps == [] {
      assert EncodeApps(apps) + more == more;
    } else {
      hide TakeApp, EncodeApp;
      var tail := EncodeApps(apps[1..]) + more;
      assert EncodeApps(apps) + more == EncodeApp(apps[0]) + tail;
      AppReads(apps[0], tail);
      AppsRead(apps[1..], more);
      assert apps == [apps[0]] + apps[1..];
    }
  }

  lemma SlotReads(s: Slot, tail: seq<byte>)
    requires ValidSlot(s)
    ensures TakeSlot(EncodeSlot(s) + tail) == Some((s, tail))
  {
    hide EncodeApps, TakeApps;
    var d := EncodeSlot(s) + tail;
    assert d[..5] == s.info && d[5] == |s.apps| && d[6..] == EncodeApps(s.apps) + tail;
    AppsRead(s.apps, tail);
  }

  lemma {:induction false} SlotsCons(s: Slot, ss: seq<Slot>)
    ensures EncodeSlots([s] + ss) == EncodeSlot(s) + EncodeSlots(ss)
    ensures ValidSlots([s] + ss) <==> ValidSlot(s) && ValidSlots(ss)
  {
    hide ValidSlot;
    assert ([s] + ss)[1..] == ss;
    assert forall i :: 0 <= i < |ss| ==> ([s] + ss)[i + 1] == ss[i];
  }

  lemma {:induction false} SlotsRead(ss: seq<Slot>, more: seq<byte>)
    requires ValidSlots(ss)
    ensures TakeSlots(EncodeSlots(ss) + more, |ss|) == Some((ss, more))
  {
    if ss == [] {
      assert EncodeSlots(ss) + more == more;
    } else {
      hide TakeSlot, EncodeSlot, EncodeSlots, ValidSlot, ValidSlots;
      var s, after := ss[0], ss[1..];
      var tail := EncodeSlots(after) + more;
      assert ss == [s] + after;
      SlotsCons(s, after);
      assert EncodeSlots(ss) + more == EncodeSlot(s) + tail;
      SlotReads(s, tail);
      SlotsRead(after, more);
    }
  }

  lemma Assoc(a: seq<byte>, b: seq<byte>, c: seq<byte>)
    ensures a + (b + c) == (a + b) + c
  {
  }

  lemma {:induction false} AppEncodes(rest: seq<byte>)
    requires TakeApp(rest).Some?
    ensures var (a, more) := TakeApp(rest).value; ValidApp(a) && rest == EncodeApp(a) + more
  {
  }

  lemma {:induction false} AppsEncode(rest: seq<byte>, n: nat)
    requires TakeApps(rest, n).Some?
    ensures var (apps, more) := TakeApps(rest, n).value;
            |apps| == n && (forall i :: 0 <= i < n ==> ValidApp(apps[i])) && rest == EncodeApps(apps) + more
    decreases n
  {
    if n > 0 {
      hide TakeApp, EncodeApp, ValidApp;
      AppEncodes(rest);
      var (a, more) := TakeApp(rest).value;
      AppsEncode(more, n - 1);
      var (apps, left) := TakeApps(more, n - 1).value;
      assert ([a] + apps)[1..] == apps;
      assert EncodeApps([a] + apps) == EncodeApp(a) + EncodeApps(apps);
      Assoc(EncodeApp(a), EncodeApps(apps), left);
    }
  }

  lemma {:induction false} SlotEncodes(rest: seq<byte>)
    requires TakeSlot(rest).Some?
    ensures var (s, more) := TakeSlot(rest).value; ValidSlot(s) && rest == EncodeSlot(s) + more
  {
    hide EncodeApps, TakeApps, ValidApp;
    AppsEncode(rest[6..], rest[5]);
    assert rest == rest[..5] + [rest[5]] + rest[6..];
  }

  /** The structure is read from exactly the octets that encode it. */
  lemma {:induction false} SlotsEncode(rest: seq<byte>, n: nat)
    requires TakeSlots(rest, n).Some?
    ensures var (ss, more) := TakeSlots(rest, n).value;
            |ss| == n && ValidSlots(ss) && rest == EncodeSlots(ss) + more
    decreases n
  {
    if n > 0 {
      hide TakeSlot, EncodeSlots, EncodeSlot, ValidSlot, ValidSlots;
      SlotEncodes(rest);
      var (s, more) := TakeSlot(rest).value;
      SlotsEncode(more, n - 1);
      var (ss, left) := TakeSlots(more, n - 1).value;
      SlotsCons(s, ss);
      Assoc(EncodeSlot(s), EncodeSlots(ss), left);
    } else {
      assert EncodeSlots([]) + rest == rest;
    }
  }

  // ---------------------------------------------------------------- the application walker

  /** The applications met, and what is left unless the data ended inside one. */
  function AidsInApps(rest: seq<byte>, n: nat): (r: (seq<AppInfo>, Option<seq<byte>>))
    decreases n
  {
    if n == 0 then ([], Some(rest))
    else if |rest| < 7 || 7 + rest[6] as int > |rest| then ([], None)
    else
      var app := AppInfo(rest[0], rest[7..7 + rest[6]]);
      if 14 + rest[6] as int > |rest| then ([app], None)
      else
        var (apps, left) := AidsInApps(rest[14 + rest[6]..], n - 1);
        ([app] + apps, left)
  }

  function AidsInSlots(rest: seq<byte>, n: nat): (r: (seq<AppInfo>, bool))
    decreases n
  {
    if n == 0 then ([], true)
    else if |rest| < 6 then ([], false)
    else
      var (apps, left) := AidsInApps(rest[6..], rest[5]);
      if left.None? then (apps, false)
      else
        var (more, whole) := AidsInSlots(left.value, n - 1);
        (apps + more, whole)
  }

  function AidsInCard(val: seq<byte>): (r: (seq<AppInfo>, bool)) {
    if |val| < 9 then ([], false) else AidsInSlots(val[9..], val[8])
  }

  /** A card status cut short keeps what it gave and the search goes on. */
  function AidsInTlvs(ts: seq<Tlv>): seq<AppInfo> {
    if ts == [] then []
    else if ts[0].typ != 0x10 then AidsInTlvs(ts[1..])
    else
      var (apps, whole) := AidsInCard(ts[0].value);
      if whole then apps else apps + AidsInTlvs(ts[1..])
  }

  // ---------------------------------------------------------------- the slot walker

  datatype Skipped = Left(rest: seq<byte>) | InApp | InAid

  function SkipApps(rest: seq<byte>, n: nat): Skipped
    decreases n
  {
    if n == 0 then Left(rest)
    else if |rest| < 7 then InApp
    else if 14 + rest[6] as int > |rest| then InAid
    else SkipApps(rest[14 + rest[6]..], n - 1)
  }

  function ActiveInSlots(rest: seq<byte>, n: nat, index: nat): Active
    decreases n
  {
    if n == 0 then Unknown
    else if |rest| < 6 then SlotTruncated
    else if rest[0] == 0x01 && rest[1] == 0x01 then Known(SlotNumber(Slot(rest[..5], []), index), rest[4] == 0)
    else
      match SkipApps(rest[6..], rest[5])
      case InApp => AppTruncated
      case InAid => AidTruncated
      case Left(more) => ActiveInSlots(more, n - 1, index + 1)
  }

  function ActiveInCard(val: seq<byte>): Active {
    if |val| < 9 then StatusTooShort else ActiveInSlots(val[9..], val[8], 0)
  }

  function ActiveInTlvs(ts: seq<Tlv>): Active {
    if ts == [] then StatusNotFound
    else if ts[0].typ == 0x10 then ActiveInCard(ts[0].value)
    else ActiveInTlvs(ts[1..])
  }

  function ActiveOf(frame: seq<byte>): Active {
    if ResultOf(frame) != Accepted then NotAccepted(ResultOf(frame)) else ActiveInTlvs(Tlvs(frame[13..]))
  }

  // ---------------------------------------------------------------- agreement

  /** One application: both walkers take it and stop at the same place. */
  lemma {:induction false} SameAppBoundary(rest: seq<byte>, n: nat)
    requires n > 0
    ensures TakeApp(rest).Some? ==>
      var (a, more) := TakeApp(rest).value;
      && ValidApp(a) && SkipApps(rest, n) == SkipApps(more, n - 1)
      && AidsInApps(rest, n) == ([AppInfo(a.info[0], a.aid)] + AidsInApps(more, n - 1).0, AidsInApps(more, n - 1).1)
    ensures TakeApp(rest).None? ==> AidsInApps(rest, n).1 == None && !SkipApps(rest, n).Left?
  {
  }

  /** Over any octets the two walkers and the structure cross the same application boundaries. */
  lemma {:induction false} SameAppBoundaries(rest: seq<byte>, n: nat)
    ensures TakeApps(rest, n).Some? ==>
      var (apps, more) := TakeApps(rest, n).value;
      && (forall i :: 0 <= i < |apps| ==> ValidApp(apps[i]))
      && AidsInApps(rest, n) == (InfosOf(apps), Some(more)) && SkipApps(rest, n) == Left(more)
    ensures TakeApps(rest, n).None? ==> AidsInApps(rest, n).1 == None && !SkipApps(rest, n).Left?
    decreases n
  {
    if n > 0 {
      SameAppBoundary(rest, n);
      if TakeApp(rest).Some? {
        hide TakeApp, AidsInApps, SkipApps;
        var (a, more) := TakeApp(rest).value;
        SameAppBoundaries(more, n - 1);
        if TakeApps(more, n - 1).Some? {
          var apps := TakeApps(more, n - 1).value.0;
          assert ([a] + apps)[1..] == apps;
        }
      }
    }
  }

  /** One slot: the application walker takes all its applications, the slot walker decides on it or
      crosses it to the same place. */
  lemma {:induction false} SameSlotBoundary(rest: seq<byte>, n: nat, index: nat)
    requires n > 0
    ensures TakeSlot(rest).Some? ==>
      var (s, more) := TakeSlot(rest).value;
      && ValidSlot(s)
      && AidsInSlots(rest, n) == (InfosOf(s.apps) + AidsInSlots(more, n - 1).0, AidsInSlots(more, n - 1).1)
      && ActiveInSlots(rest, n, index) ==
           if IsActive(s) then Known(SlotNumber(s, index), s.info[4] == 0) else ActiveInSlots(more, n - 1, index + 1)
    ensures TakeSlot(rest).None? ==> !AidsInSlots(rest, n).1 && ActiveInSlots(rest, n, index) != Unknown
  {
    hide TakeApps, AidsInApps, SkipApps, InfosOf, ValidApp;
    if |rest| >= 6 {
      SameAppBoundaries(rest[6..], rest[5]);
      if TakeSlot(rest).Some? {
        AppsEncode(rest[6..], rest[5]);
      }
    }
  }

  lemma {:induction false} FlattenCons(s: Slot, ss: seq<Slot>, index: nat)
    requires ValidSlot(s) && ValidSlots(ss)
    ensures ValidSlots([s] + ss) && Flatten([s] + ss) == InfosOf(s.apps) + Flatten(ss)
    ensures FirstActive([s] + ss, index) ==
      if IsActive(s) then Known(SlotNumber(s, index), s.info[4] == 0) else FirstActive(ss, index + 1)
  {
    hide EncodeSlot;
    SlotsCons(s, ss);
    assert ([s] + ss)[1..] == ss;
  }

  /** Over any octets: when the structure is whole the first walker lists all of its applications
      in order and the second finds its first active slot; when it is cut short the first says so
      and the second never claims that no slot is active. */
  lemma {:induction false} WalkersAgree(rest: seq<byte>, n: nat, index: nat)
    ensures TakeSlots(rest, n).Some? ==>
      var ss := TakeSlots(rest, n).value.0;
      ValidSlots(ss) && AidsInSlots(rest, n) == (Flatten(ss), true) && ActiveInSlots(rest, n, index) == FirstActive(ss, index)
    ensures TakeSlots(rest, n).None? ==> !AidsInSlots(rest, n).1 && ActiveInSlots(rest, n, index) != Unknown
    decreases n
  {
    if n > 0 {
      SameSlotBoundary(rest, n, index);
      if TakeSlot(rest).Some? {
        hide TakeSlot, AidsInSlots, ActiveInSlots, ValidSlot, ValidSlots, InfosOf, Flatten, FirstActive, IsActive, SlotNumber;
        var (s, more) := TakeSlot(rest).value;
        WalkersAgree(more, n - 1, index + 1);
        if TakeSlots(more, n - 1).Some? {
          FlattenCons(s, TakeSlots(more, n - 1).value.0, index);
        }
      }
    }
  }

  function EncodeCard(indexes: seq<byte>, ss: seq<Slot>, trailing: seq<byte>): seq<byte> {
    indexes + [|ss| % 256] + EncodeSlots(ss) + trailing
  }

  lemma {:induction false} FirstCardFound(before: seq<Tlv>, card: Tlv, after: seq<Tlv>)
    requires card.typ == 0x10 && forall i :: 0 <= i < |before| ==> before[i].typ != 0x10
    ensures AidsInCard(card.value).1 ==> AidsInTlvs(before + [card] + after) == AidsInCard(card.value).0
    ensures ActiveInTlvs(before + [card] + after) == ActiveInCard(card.value)
  {
    hide AidsInCard, ActiveInCard;
    var ts := before + [card] + after;
    if before != [] {
      FirstCardFound(before[1..], card, after);
      assert ts[1..] == before[1..] + [card] + after;
    }
  }

  /** On a frame that carries a well-formed card status, after any other TLVs and before anything,
      the application walker returns every application, slot by slot, and the slot walker, if
      the reply reports success, the first active slot. */
  lemma {:induction false} WellFormedFrame(frame: seq<byte>, before: seq<Tlv>, after: seq<Tlv>, indexes: seq<byte>, ss: seq<Slot>, trailing: seq<byte>)
    requires |frame| >= 13 && ValidSlots(ss) && |ss| < 256 && |indexes| == 8
    requires Tlvs(frame[13..]) == before + [Tlv(0x10, EncodeCard(indexes, ss, trailing))] + after
    requires forall i :: 0 <= i < |before| ==> before[i].typ != 0x10
    ensures AidsInTlvs(Tlvs(frame[13..])) == Flatten(ss)
    ensures ActiveOf(frame) == if ResultOf(frame) == Accepted then FirstActive(ss, 0) else NotAccepted(ResultOf(frame))
  {
    hide TakeSlots, AidsInSlots, ActiveInSlots, FirstActive, Flatten, ValidSlots, EncodeSlots, AidsInTlvs, ActiveInTlvs, ResultOf;
    var val := EncodeCard(indexes, ss, trailing);
    assert val[8] == |ss| && val[9..] == EncodeSlots(ss) + trailing;
    SlotsRead(ss, trailing);
    WalkersAgree(val[9..], |ss|, 0);
    FirstCardFound(before, Tlv(0x10, val), after);
  }

  // ---------------------------------------------------------------- the walkers' loops

  lemma AidStep(val: seq<byte>, v: nat, n: nat)
    requires v <= |val| && n > 0
    ensures AidsInApps(val[v..], n) ==
      if v + 7 > |val| || v + 7 + val[v + 6] as int > |val| then ([], None)
      else
        var l := val[v + 6];
        var app := AppInfo(val[v], val[v + 7..v + 7 + l]);
        if v + 14 + l as int > |val| then ([app], None)
        else
          var (apps, left) := AidsInApps(val[v + 14 + l..], n - 1);
          ([app] + apps, left)
  {
    var rest := val[v..];
    if v + 7 <= |val| {
      var l := val[v + 6];
      if v + 7 + l as int <= |val| { assert rest[7..7 + l] == val[v + 7..v + 7 + l]; }
      if v + 14 + l as int <= |val| { assert rest[14 + l..] == val[v + 14 + l..]; }
    }
  }

  /** The innermost loop of parseAllAIDs. */
  method WalkApps(val: seq<byte>, at: nat, numApps: nat) returns (apps: seq<AppInfo>, next: Option<nat>)
    requires at <= |val|
    ensures apps == AidsInApps(val[at..], numApps).0
    ensures match next
            case None => AidsInApps(val[at..], numApps).1 == None
            case Some(v) => at <= v <= |val| && AidsInApps(val[at..], numApps).1 == Some(val[v..])
  {
    hide AidsInApps;
    apps := [];
    var vIdx: nat := at;
    assert [] + AidsInApps(val[at..], numApps).0 == AidsInApps(val[at..], numApps).0;
    for a := 0 to numApps
      invariant at <= vIdx <= |val|
      invariant AidsInApps(val[at..], numApps) ==
        (apps + AidsInApps(val[vIdx..], numApps - a).0, AidsInApps(val[vIdx..], numApps - a).1)
    {
      AidStep(val, vIdx, numApps - a);
      ghost var was := apps;
      assert was + [] == was;
      if vIdx + 6 > |val| {
        return apps, None;
      }
      var appType := val[vIdx];
      vIdx := vIdx + 6;
      if vIdx >= |val| {
        return apps, None;
      }
      var aidLen := val[vIdx];
      vIdx := vIdx + 1;
      if vIdx + aidLen > |val| {
        return apps, None;
      }
      apps := apps + [AppInfo(appType, val[vIdx..vIdx + aidLen])];
      vIdx := vIdx + aidLen;
      if vIdx + 7 > |val| {
        return apps, None;
      }
      vIdx := vIdx + 7;
      ghost var later := AidsInApps(val[vIdx..], numApps - a - 1).0;
      assert was + (apps[|was|..] + later) == apps + later;
    }
    NoApps(val[vIdx..]);
    next := Some(vIdx);
  }

  lemma NoApps(rest: seq<byte>)
    ensures AidsInApps(rest, 0) == ([], Some(rest))
  {
  }

  lemma {:induction false} AidSlotStep(val: seq<byte>, v: nat, n: nat)
    requires v <= |val| && n > 0
    ensures AidsInSlots(val[v..], n) ==
      if v + 6 > |val| then ([], false)
      else
        var (apps, left) := AidsInApps(val[v + 6..], val[v + 5]);
        if left.None? then (apps, false)
        else (apps + AidsInSlots(left.value, n - 1).0, AidsInSlots(left.value, n - 1).1)
  {
    if v + 6 <= |val| { assert val[v..][6..] == val[v + 6..]; }
  }

  /** The card-status part of parseAllAIDs. */
  method WalkCard(val: seq<byte>) returns (apps: seq<AppInfo>, whole: bool)
    ensures (apps, whole) == AidsInCard(val)
  {
    hide AidsInSlots;
    apps := [];
    var vIdx := 0;
    if vIdx + 8 > |val| {
      return apps, false;
    }
    vIdx := vIdx + 8;
    if vIdx >= |val| {
      return apps, false;
    }
    var numSlots: nat := val[vIdx] as int;
    vIdx := vIdx + 1;
    assert [] + AidsInSlots(val[9..], numSlots).0 == AidsInSlots(val[9..], numSlots).0;
    for s := 0 to numSlots
      invariant 9 <= vIdx <= |val|
      invariant AidsInSlots(val[9..], numSlots) ==
        (apps + AidsInSlots(val[vIdx..], numSlots - s).0, AidsInSlots(val[vIdx..], numSlots - s).1)
    {
      AidSlotStep(val, vIdx, numSlots - s);
      ghost var was := apps;
      assert was + [] == was;
      if vIdx + 5 > |val| {
        return apps, false;
      }
      vIdx := vIdx + 5;
      if vIdx >= |val| {
        return apps, false;
      }
      var numApps := val[vIdx];
      vIdx := vIdx + 1;
      var more, next := WalkApps(val, vIdx, numApps);
      apps := apps + more;
      if next == None {
        return apps, false;
      }
      vIdx := next.value;
      ghost var later := AidsInSlots(val[vIdx..], numSlots - s - 1).0;
      assert was + (more + later) == apps + later;
    }
    NoSlots(val[vIdx..], numSlots);
    assert apps + [] == apps;
    whole := true;
  }

  lemma NoSlots(rest: seq<byte>, index: nat)
    ensures AidsInSlots(rest, 0) == ([], true) && ActiveInSlots(rest, 0, index) == Unknown
  {
  }

  datatype Listing = Apps(apps: seq<AppInfo>) | ReplyTooShort

  method ParseAllAIDs(data: seq<byte>) returns (r: Listing)
    ensures r == if |data| < 13 then Listing.ReplyTooShort else Apps(AidsInTlvs(Tlvs(data[13..])))
  {
    hide Head, Get16, AidsInCard;
    if |data| < 13 {
      return Listing.ReplyTooShort;
    }
    var tlvs, idx, apps := data[13..], 0, [];
    assert tlvs[0..] == tlvs;
    while idx + 3 <= |tlvs|
      invariant 0 <= idx <= |tlvs|
      invariant AidsInTlvs(Tlvs(tlvs)) == apps + AidsInTlvs(Tlvs(tlvs[idx..]))
      decreases |tlvs| - idx
    {
      var typ, l := tlvs[idx], Get16(tlvs, idx + 1);
      HeadAt(tlvs, idx);
      if idx + 3 + l > |tlvs| {
        break;
      }
      var val := tlvs[idx + 3..idx + 3 + l];
      if typ == 0x10 {
        var more, whole := WalkCard(val);
        apps := apps + more;
        if whole {
          return Apps(apps);
        }
      }
      idx := idx + 3 + l;
    }
    return Apps(apps);
  }

  lemma {:induction false} SkipStep(val: seq<byte>, v: nat, n: nat)
    requires v <= |val| && n > 0
    ensures SkipApps(val[v..], n) ==
      if v + 7 > |val| then InApp
      else if v + 7 + val[v + 6] as int + 7 > |val| then InAid
      else SkipApps(val[v + 7 + val[v + 6] as int + 7..], n - 1)
  {
    if v + 7 <= |val| && v + 14 + val[v + 6] as int <= |val| {
      assert val[v..][14 + val[v + 6]..] == val[v + 14 + val[v + 6]..];
    }
  }

  /** The innermost loop of ParseActiveSlot. */
  method CrossApps(val: seq<byte>, at: nat, numApps: nat) returns (r: Skipped, next: nat)
    requires at <= |val|
    ensures r == SkipApps(val[at..], numApps)
    ensures r.Left? ==> at <= next <= |val| && r.rest == val[next..]
  {
    hide SkipApps;
    var vIdx: nat := at;
    for a := 0 to numApps
      invariant at <= vIdx <= |val| && SkipApps(val[at..], numApps) == SkipApps(val[vIdx..], numApps - a)
    {
      SkipStep(val, vIdx, numApps - a);
      if vIdx + 7 > |val| {
        return InApp, 0;
      }
      var aidLen := val[vIdx + 6];
      vIdx := vIdx + 7 + aidLen + 7;
      if vIdx > |val| {
        return InAid, 0;
      }
    }
    NoneToSkip(val[vIdx..]);
    return Left(val[vIdx..]), vIdx;
  }

  lemma NoneToSkip(rest: seq<byte>)
    ensures SkipApps(rest, 0) == Left(rest)
  {
  }

  lemma {:induction false} ActiveStep(val: seq<byte>, v: nat, n: nat, index: nat)
    requires v <= |val| && n > 0
    ensures ActiveInSlots(val[v..], n, index) ==
      if v + 6 > |val| then SlotTruncated
      else if val[v] == 0x01 && val[v + 1] == 0x01 then
        Known(if val[v + 4] != 0 then val[v + 4] else (index + 1) % 256, val[v + 4] == 0)
      else
        match SkipApps(val[v + 6..], val[v + 5])
        case InApp => AppTruncated
        case InAid => AidTruncated
        case Left(more) => ActiveInSlots(more, n - 1, index + 1)
  {
    if v + 6 <= |val| { assert val[v..][6..] == val[v + 6..]; }
  }

  /** The card-status part of ParseActiveSlot. */
  method ActiveCard(val: seq<byte>) returns (r: Active)
    ensures r == ActiveInCard(val)
  {
    hide ActiveInSlots;
    if |val| < 9 {
      return StatusTooShort;
    }
    var vIdx := 8;
    var numSlots: nat := val[vIdx] as int;
    vIdx := vIdx + 1;
    for s := 0 to numSlots
      invariant 9 <= vIdx <= |val|
      invariant ActiveInSlots(val[9..], numSlots, 0) == ActiveInSlots(val[vIdx..], numSlots - s, s)
    {
      ActiveStep(val, vIdx, numSlots - s, s);
      if vIdx + 6 > |val| {
        return SlotTruncated;
      }
      var cardState, slotState, logicalSlot := val[vIdx], val[vIdx + 1], val[vIdx + 4];
      vIdx := vIdx + 5;
      var numApps := val[vIdx];
      vIdx := vIdx + 1;
      if cardState == 0x01 && slotState == 0x01 {
        if logicalSlot != 0 {
          return Known(logicalSlot, false);
        }
        return Known((s + 1) % 256, true);
      }
      var skipped, next := CrossApps(val, vIdx, numApps);
      match skipped {
        case InApp => return AppTruncated;
        case InAid => return AidTruncated;
        case Left(_) => vIdx := next;
      }
    }
    NoSlots(val[vIdx..], numSlots);
    return Unknown;
  }

  method ParseActiveSlot(frame: seq<byte>) returns (r: Active)
    ensures r == ActiveOf(frame)
  {
    hide Head, Get16, ActiveInCard, ResultIn;
    var verdict := ParseQMIResultOnly(frame);
    if verdict != Accepted {
      return NotAccepted(verdict);
    }
    var tlvs, idx := frame[13..], 0;
    assert tlvs[0..] == tlvs;
    while idx + 3 <= |tlvs|
      invariant 0 <= idx <= |tlvs|
      invariant ActiveInTlvs(Tlvs(tlvs)) == ActiveInTlvs(Tlvs(tlvs[idx..]))
      decreases |tlvs| - idx
    {
      var typ, l := tlvs[idx], Get16(tlvs, idx + 1);
      HeadAt(tlvs, idx);
      if idx + 3 + l > |tlvs| {
        break;
      }
      if typ == 0x10 {
        r := ActiveCard(tlvs[idx + 3..idx + 3 + l]);
        return;
      }
      idx := idx + 3 + l;
    }
    return StatusNotFound;
  }
}
