/** Delivery over whole runs of a device: callers that draw their own ids need to know nothing else
    about each other. */
module MbimRuns {
  import opened Bytes
  import opened MbimFragments
  import opened MbimCollector
  import opened MbimDevice
  import opened MbimDelivery

  /** The messages about transaction tx among the steps. */
  function FromModem(ls: seq<Label>, tx: nat): (r: seq<Label>)
    ensures |r| <= |ls|
  {
    if ls == [] then []
    else
      var l := ls[|ls| - 1];
      FromModem(ls[..|ls| - 1], tx) + if l.Message? && About(l, tx) then [l] else []
  }

  lemma {:induction false} OnlyFromModem(ls: seq<Label>, tx: nat)
    requires forall i :: 0 <= i < |ls| && About(ls[i], tx) ==> ls[i].Message?
    ensures Only(ls, tx) == FromModem(ls, tx)
  {
    hide About;
    if ls != [] {
      OnlyFromModem(ls[..|ls| - 1], tx);
    }
  }

  // ---------------------------------------------------------------- collectors

  lemma {:induction false} OtherMakesNoCollector(d: Device, l: Label, tx: nat)
    requires !About(l, tx) && tx !in d.collectors
    ensures tx !in Apply(d, l).collectors
  {
    hide Add, Assemble, Shape, Get32;
  }

  /** A transaction nothing has happened to has no collector. */
  lemma {:induction false} NoCollectorBefore(r: Run, a: nat, tx: nat)
    requires IsRun(r) && a < |r.states| && Only(r.labels[..a], tx) == []
    ensures tx !in r.states[a].collectors
  {
    if a > 0 {
      hide Apply, About, Inv;
      assert r.labels[..a][..a - 1] == r.labels[..a - 1];
      NoCollectorBefore(r, a - 1, tx);
      OtherMakesNoCollector(r.states[a - 1], r.labels[a - 1], tx);
      assert r.states[a - 1 + 1] == Apply(r.states[a - 1], r.labels[a - 1]);
    }
  }

  /** From a new device on: when nothing happened to tx before it was registered, and after that exactly
      the fragments of its reply, the channel made for it holds exactly that reply. */
  lemma RegisteredGetsReply(r: Run, e: nat, b: nat, c: Content, chunks: seq<seq<byte>>)
    requires IsRun(r) && e < b < |r.states| && r.labels[e].Register? && r.labels[e].tx < U32
    requires 0 < |chunks| < U32 && c.Fits() && Concat(chunks) == c.info
    requires var tx := r.labels[e].tx;
             Only(r.labels[..e], tx) == [] && Only(r.labels[e + 1..b], tx) == Messages(Frames(COMMAND_DONE, tx, c, chunks))
    ensures var ch := r.states[e].made; ch in r.states[b].sent && r.states[b].sent[ch] == [ReplyOf(c)]
  {
    hide About, Frames, Concat, Only, HandleMessage, Inv;
    var tx := r.labels[e].tx;
    NoCollectorBefore(r, e, tx);
    assert r.states[e + 1] == Apply(r.states[e], r.labels[e]);
    DeliversOwnReply(r, e + 1, b, tx, c, chunks);
  }

  // ---------------------------------------------------------------- ids drawn by their callers

  /** The call that takes step i drew its id in step g. */
  ghost predicate Drew(r: Run, g: nat, i: nat) {
    && g < i < |r.labels| < |r.states| && r.labels[g].AllocTx?
    && match r.labels[i] {
         case Register(tx) => tx == r.states[g + 1].nextTx
         case Forget(tx) => tx == r.states[g + 1].nextTx
         case _ => false
       }
  }

  /** Every call registers the id it drew itself, once, and gives up only what it registered; draw names
      the step in which the call that takes step i drew. */
  ghost predicate OwnIds(r: Run, draw: nat -> nat) {
    && (forall i :: 0 <= i < |r.labels| && (r.labels[i].Register? || r.labels[i].Forget?) ==> Drew(r, draw(i), i))
    && (forall i, j :: 0 <= i < j < |r.labels| && r.labels[i].Register? && r.labels[j].Register? ==> draw(i) != draw(j))
    && forall i :: 0 <= i < |r.labels| && r.labels[i].Forget? ==>
         exists e :: 0 <= e < i && r.labels[e].Register? && draw(e) == draw(i)
  }

  lemma {:induction false} AllocationsAppend(a: seq<Label>, b: seq<Label>)
    ensures Allocations(a + b) == Allocations(a) + Allocations(b)
  {
    if b == [] {
      assert a + b == a;
    } else {
      AllocationsAppend(a, b[..|b| - 1]);
      assert (a + b)[..|a + b| - 1] == a + b[..|b| - 1];
    }
  }

  lemma AllocationsBetween(ls: seq<Label>, g: nat, h: nat)
    requires g < h < |ls| && ls[g].AllocTx? && ls[h].AllocTx?
    ensures Allocations(ls[g + 1..h]) + 2 <= Allocations(ls)
  {
    hide Allocations;
    Split(ls, 0, g);
    AllocationsAppend(ls[..g + 1], ls[g + 1..h]);
    assert ls[..h] == ls[..g + 1] + ls[g + 1..h];
    Split(ls, 0, h);
    AllocationsAppend(ls[..h + 1], ls[h + 1..]);
    assert ls == ls[..h + 1] + ls[h + 1..];
  }

  lemma Split(ls: seq<Label>, g: nat, h: nat)
    requires g <= h < |ls|
    ensures Allocations(ls[g..h + 1]) == Allocations(ls[g..h]) + if ls[h].AllocTx? then 1 else 0
  {
    assert ls[g..h + 1][..h - g] == ls[g..h];
  }

  /** With at most 2^32 allocations in the run two draws give two ids. */
  lemma DrawsDiffer(r: Run, g: nat, h: nat)
    requires IsTrace(r) && g < |r.labels| && h < |r.labels| && g != h
    requires r.labels[g].AllocTx? && r.labels[h].AllocTx? && Allocations(r.labels) <= U32
    ensures r.states[g + 1].nextTx != r.states[h + 1].nextTx
  {
    hide Inv, Apply, Allocations;
    var first, second := if g < h then g else h, if g < h then h else g;
    AllocationsBetween(r.labels, first, second);
    TransactionIdsDiffer(r, first, second);
    NotMultiple(Allocations(r.labels[first + 1..second]) + 1);
  }

  lemma NotMultiple(n: nat)
    requires 0 < n < U32
    ensures n % U32 != 0
  {
  }

  /** Nobody but its own call registers a transaction or gives it up. */
  lemma OnlyOwner(r: Run, draw: nat -> nat, e: nat, i: nat)
    requires IsTrace(r) && OwnIds(r, draw) && Allocations(r.labels) <= U32
    requires e < |r.labels| && i < |r.labels| && i != e && r.labels[e].Register?
    ensures r.labels[i] != Register(r.labels[e].tx)
    ensures r.labels[i] == Forget(r.labels[e].tx) ==> e < i && draw(i) == draw(e)
  {
    hide Inv, Apply, Allocations, IsTrace;
    assert Drew(r, draw(e), e);
    if r.labels[i].Register? {
      assert Drew(r, draw(i), i);
      DrawsDiffer(r, draw(e), draw(i));
    } else if r.labels[i].Forget? {
      assert Drew(r, draw(i), i);
      if draw(i) != draw(e) {
        DrawsDiffer(r, draw(e), draw(i));
      }
    }
  }

  lemma {:induction false} IdsFitInAWord(r: Run, g: nat)
    requires IsTrace(r) && g < |r.labels| && r.labels[g].AllocTx?
    ensures r.states[g + 1].nextTx < U32
  {
    hide Inv;
    assert r.states[g + 1] == Apply(r.states[g], r.labels[g]);
  }

  lemma {:induction false} OwnIdFits(r: Run, draw: nat -> nat, e: nat)
    requires IsTrace(r) && OwnIds(r, draw) && e < |r.labels| && r.labels[e].Register?
    ensures r.labels[e].tx < U32
  {
    hide Inv, Apply, IsTrace;
    assert Drew(r, draw(e), e);
    IdsFitInAWord(r, draw(e));
  }

  /** Up to step b only messages concern the transaction, apart from its own registration. */
  lemma OthersAreMessages(r: Run, draw: nat -> nat, e: nat, b: nat)
    requires IsTrace(r) && OwnIds(r, draw) && Allocations(r.labels) <= U32
    requires e < b <= |r.labels| && r.labels[e].Register?
    requires forall i :: 0 <= i < b ==> r.labels[i] != ReadFailed
    requires forall i :: e < i < b && r.labels[i].Forget? ==> draw(i) != draw(e)
    ensures forall i :: 0 <= i < b && i != e && About(r.labels[i], r.labels[e].tx) ==> r.labels[i].Message?
  {
    hide Inv, Apply, Allocations, OwnIds, IsTrace;
    forall i | 0 <= i < b && i != e && About(r.labels[i], r.labels[e].tx) ensures r.labels[i].Message? {
      OnlyOwner(r, draw, e, i);
    }
  }

  /** Delivery over whole runs from a new device: let every call draw the id it registers, with at most
      2^32 draws in all, and let the read loop not have ended by step b. Then a call that
      registered in step e and has not given up, whose modem sends nothing about its id before and
      just the fragments of its reply, in order, after, has exactly its own reply on its own
      channel, whatever the other calls do in between. Nothing is assumed about reuse of ids. */
  lemma EveryCallGetsItsReply(r: Run, draw: nat -> nat, e: nat, b: nat, c: Content, chunks: seq<seq<byte>>)
    requires IsRun(r) && OwnIds(r, draw) && Allocations(r.labels) <= U32
    requires e < b < |r.states| && r.labels[e].Register?
    requires forall i :: 0 <= i < b ==> r.labels[i] != ReadFailed
    requires forall i :: e < i < b && r.labels[i].Forget? ==> draw(i) != draw(e)
    requires 0 < |chunks| < U32 && c.Fits() && Concat(chunks) == c.info
    requires var tx := r.labels[e].tx;
             && FromModem(r.labels[..e], tx) == []
             && FromModem(r.labels[e + 1..b], tx) == Messages(Frames(COMMAND_DONE, tx, c, chunks))
    ensures var ch := r.states[e].made; ch in r.states[b].sent && r.states[b].sent[ch] == [ReplyOf(c)]
  {
    hide Inv, Apply, Allocations, Frames, Concat, Only, FromModem, OwnIds, Drew, About, Messages;
    var tx := r.labels[e].tx;
    OthersAreMessages(r, draw, e, b);
    var before, after := r.labels[..e], r.labels[e + 1..b];
    assert forall i :: 0 <= i < |before| ==> before[i] == r.labels[i];
    OnlyFromModem(before, tx);
    assert forall i :: 0 <= i < |after| ==> after[i] == r.labels[e + 1 + i];
    OnlyFromModem(after, tx);
    OwnIdFits(r, draw, e);
    RegisteredGetsReply(r, e, b, c, chunks);
  }
}
