/** How requests become tickets: the defaults and the normalisation of acquire and BeginBarrier. */
module ArbiterRequests {
  import opened ArbiterModel
  import opened Text

  /** A caller's request; mode and scope are the raw strings. */
  datatype Request = Request(mode: string, class_: Class, channel: int, scope: string)

  const QMI_CHANNEL := "qmi_channel"
  const EXCLUSIVE := "exclusive"

  /** Upper-casing one character: any function that does the ASCII letters as usual, leaves an upper-case
      letter alone, and makes no white space of anything else or the other way round. */
  ghost predicate IsUpper(upper: char -> char) {
    && (forall c :: 'a' <= c <= 'z' ==> upper(c) == c - 'a' + 'A')
    && (forall c :: 'A' <= c <= 'Z' ==> upper(c) == c)
    && forall c :: upper(upper(c)) == upper(c) && IsSpace(upper(c)) == IsSpace(c)
  }

  function ToUpper(s: string, upper: char -> char): (r: string)
    ensures |r| == |s| && forall i :: 0 <= i < |s| ==> r[i] == upper(s[i])
  {
    seq(|s|, i requires 0 <= i < |s| => upper(s[i]))
  }

  /** normalizeMode. */
  function NormalizeMode(mode: string, upper: char -> char): string {
    var m := ToUpper(Trim(mode, IsSpace), upper);
    if m == "" then "UNKNOWN" else m
  }

  /** normalizeClass. */
  function NormalizeClass(c: Class, lt: LeaseType): (r: Class)
    ensures r != ""
  {
    if c != "" then c else if lt == OneShot then USIM_AKA else EUICC_WRITE
  }

  /** normalizeTransportScope, on a mode that has been normalised. */
  function NormalizeScope(scope: string, mode: string, channel: int, lt: LeaseType): Scope {
    if lt == Transport && scope == QMI_CHANNEL && mode == "QMI" && channel > 0 then QMIChannel else Exclusive
  }

  function ScopeName(s: Scope): string {
    if s == QMIChannel then QMI_CHANNEL else EXCLUSIVE
  }

  /** normalizeRequest. */
  function NormalizeRequest(req: Request, lt: LeaseType, upper: char -> char): Request {
    var mode := NormalizeMode(req.mode, upper);
    Request(mode, NormalizeClass(req.class_, lt), req.channel,
            ScopeName(NormalizeScope(req.scope, mode, req.channel, lt)))
  }

  function LeaseTicket(id: nat, req: Request, lt: LeaseType, at: int, upper: char -> char): (t: Ticket)
    requires lt != Barrier
    ensures WellFormedTicket(t) && t.leaseType == lt && t.id == id && t.enqueued == at && t.blocked == {}
    ensures t.scope == QMIChannel <==>
              lt == Transport && req.scope == QMI_CHANNEL && NormalizeMode(req.mode, upper) == "QMI" && req.channel > 0
    ensures t.channel == req.channel && t.class_ != "" && (req.class_ != "" ==> t.class_ == req.class_)
  {
    var r := NormalizeRequest(req, lt, upper);
    Ticket(id, r.class_, r.channel, NormalizeScope(r.scope, r.mode, r.channel, lt), lt, {}, at)
  }

  /** The classes a barrier blocks: the listed ones, with "" read as AKA, or AKA and SMSC. */
  function BlockedClasses(listed: seq<Class>): (blocked: set<Class>)
    ensures blocked != {}
    ensures listed != [] ==> forall c :: c in blocked <==> exists i :: 0 <= i < |listed| && c == NormalizeClass(listed[i], OneShot)
    ensures listed == [] ==> blocked == {USIM_AKA, SMSC}
  {
    if listed == [] then {USIM_AKA, SMSC}
    else
      var cs := set i | 0 <= i < |listed| :: NormalizeClass(listed[i], OneShot);
      assert NormalizeClass(listed[0], OneShot) in cs;
      cs
  }

  function BarrierTicket(id: nat, class_: Class, channel: int, listed: seq<Class>, at: int): (t: Ticket)
    ensures WellFormedTicket(t) && t.leaseType == Barrier && t.id == id && t.enqueued == at
    ensures t.scope == Exclusive && t.channel == channel && t.blocked == BlockedClasses(listed)
  {
    Ticket(id, if class_ == "" then SWITCH_BARRIER else class_, channel, Exclusive, Barrier, BlockedClasses(listed), at)
  }

  /** The limits of New: positive options are taken, others replaced: two minutes, one session, one QMI
      transport. */
  function Defaults(maxHold: int, maxSessions: int, maxQMI: int): (cfg: Config)
    ensures cfg.Valid()
    ensures cfg.maxHold == (if maxHold > 0 then maxHold else 120_000_000_000)
    ensures cfg.maxSessions == (if maxSessions > 0 then maxSessions else 1) && cfg.maxQMI == (if maxQMI > 0 then maxQMI else 1)
  {
    Config(if maxHold <= 0 then DEFAULT_HOLD else maxHold,
           if maxSessions <= 0 then 1 else maxSessions,
           if maxQMI <= 0 then 1 else maxQMI)
  }

  /** A class that is named stays; without one a one-shot authenticates, any other lease writes, and a
      barrier switches. */
  lemma {:induction false} ClassOfRequest(id: nat, req: Request, lt: LeaseType, at: int, upper: char -> char, listed: seq<Class>)
    requires lt != Barrier
    ensures LeaseTicket(id, req, lt, at, upper).class_ ==
            if req.class_ != "" then req.class_ else if lt == OneShot then "USIMAKA" else "EUICCWrite"
    ensures BarrierTicket(id, req.class_, req.channel, listed, at).class_ == if req.class_ != "" then req.class_ else "SwitchBarrier"
    ensures listed == [] ==> BarrierTicket(id, req.class_, req.channel, listed, at).blocked == {"USIMAKA", "SMSC"}
    ensures "" in listed ==> "USIMAKA" in BarrierTicket(id, req.class_, req.channel, listed, at).blocked
  {
    if "" in listed {
      var i :| 0 <= i < |listed| && listed[i] == "";
      assert "USIMAKA" == NormalizeClass(listed[i], OneShot);
    }
  }

  /** A mode is what is left of it between white space, in upper case, and "UNKNOWN" if nothing is. */
  lemma {:induction false} ModeIs(lead: string, core: string, trail: string, upper: char -> char)
    requires All(lead, IsSpace) && All(trail, IsSpace) && (core != "" ==> !IsSpace(core[0]) && !IsSpace(core[|core| - 1]))
    ensures var m := NormalizeMode(lead + core + trail, upper);
            if core == "" then m == "UNKNOWN" else |m| == |core| && forall i :: 0 <= i < |core| ==> m[i] == upper(core[i])
  {
    hide Trim, IsSpace;
    TrimStrips(lead, core, trail, IsSpace);
  }

  lemma UnknownStays(upper: char -> char)
    requires IsUpper(upper)
    ensures NormalizeMode("UNKNOWN", upper) == "UNKNOWN"
  {
    var u := "UNKNOWN";
    assert !IsSpace('U') && !IsSpace('N');
    assert forall i :: 0 <= i < |u| ==> 'A' <= u[i] <= 'Z';
    hide IsSpace, Trim;
    TrimKeeps(u, IsSpace);
    assert ToUpper(u, upper) == u;
  }

  lemma ModeNormalisesOnce(mode: string, upper: char -> char)
    requires IsUpper(upper)
    ensures NormalizeMode(NormalizeMode(mode, upper), upper) == NormalizeMode(mode, upper)
  {
    hide IsSpace, Trim;
    var t := Trim(mode, IsSpace);
    var u := ToUpper(t, upper);
    if t == "" {
      UnknownStays(upper);
    } else {
      TrimmedEnds(mode, IsSpace);
      TrimKeeps(u, IsSpace);
      assert ToUpper(u, upper) == u;
    }
  }

  /** AcquireTransport normalises and so does acquire: the second time changes nothing. */
  lemma RequestNormalisesOnce(req: Request, lt: LeaseType, upper: char -> char)
    requires IsUpper(upper)
    ensures NormalizeRequest(NormalizeRequest(req, lt, upper), lt, upper) == NormalizeRequest(req, lt, upper)
  {
    hide NormalizeMode, IsUpper;
    ModeNormalisesOnce(req.mode, upper);
  }
}
