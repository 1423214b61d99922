/** Reassembly of concatenated SMS: what comes out does not depend on the order of arrival. */
module SmsReassembler {
  import opened Wrappers

  datatype Fragment = Fragment(total: int, seqNo: nat, content: string, time: nat)

  datatype Concat = Concat(isConcat: bool, ref: int, total: int, seqNo: nat)

  type Cache = map<string, seq<Fragment>>

  // ---------------------------------------------------------------- keys

  function Digit(d: nat): char
    requires d < 10
  {
    '0' + d as char
  }

  function DigitsOf(n: nat): (s: string)
    ensures s != "" && forall i :: 0 <= i < |s| ==> '0' <= s[i] <= '9'
  {
    if n < 10 then [Digit(n)] else DigitsOf(n / 10) + [Digit(n % 10)]
  }

  /** The %d rendering of an integer. */
  function Decimal(n: int): (s: string)
    ensures s != "" && forall i :: 0 <= i < |s| ==> s[i] != '_'
  {
    if n < 0 then ['-'] + DigitsOf(-n) else DigitsOf(n)
  }

  function Key(sender: string, ref: int): string {
    sender + ['_'] + Decimal(ref)
  }

  function ValueOf(s: string): nat
    requires forall i :: 0 <= i < |s| ==> '0' <= s[i] <= '9'
  {
    if s == "" then 0 else 10 * ValueOf(s[..|s| - 1]) + (s[|s| - 1] as int - '0' as int)
  }

  lemma {:induction false} DigitsRead(n: nat)
    ensures ValueOf(DigitsOf(n)) == n
  {
    if n < 10 {
      assert DigitsOf(n)[..0] == "";
    } else {
      DigitsRead(n / 10);
      assert DigitsOf(n)[..|DigitsOf(n)| - 1] == DigitsOf(n / 10);
    }
  }

  lemma DecimalInjective(m: int, n: int)
    requires Decimal(m) == Decimal(n)
    ensures m == n
  {
    hide DigitsOf, ValueOf;
    DigitsRead(if m < 0 then -m else m);
    DigitsRead(if n < 0 then -n else n);
    assert m < 0 <==> Decimal(m)[0] == '-';
    assert n < 0 <==> Decimal(n)[0] == '-';
    if m < 0 {
      assert Decimal(m)[1..] == DigitsOf(-m) && Decimal(n)[1..] == DigitsOf(-n);
    }
  }

  lemma SeparatorAt(s: string, r: int)
    ensures |s| < |Key(s, r)| && Key(s, r)[|s|] == '_'
  {
  }

  lemma NoSeparatorAfter(s: string, r: int, i: nat)
    requires |s| < i < |Key(s, r)|
    ensures Key(s, r)[i] != '_'
  {
  }

  lemma NotShorter(s1: string, r1: int, s2: string, r2: int)
    requires Key(s1, r1) == Key(s2, r2)
    ensures |s1| >= |s2|
  {
    hide Key, Decimal;
    KeyIsLonger(s2, r2);
    if |s1| < |s2| {
      NoSeparatorAfter(s1, r1, |s2|);
      SeparatorAt(s2, r2);
    }
  }

  lemma KeyIsLonger(s: string, r: int)
    ensures |s| < |Key(s, r)|
  {
  }

  /** Distinct conversations never share a cache entry. */
  lemma KeyInjective(s1: string, r1: int, s2: string, r2: int)
    requires Key(s1, r1) == Key(s2, r2)
    ensures s1 == s2 && r1 == r2
  {
    hide Decimal;
    NotShorter(s1, r1, s2, r2);
    NotShorter(s2, r2, s1, r1);
    var k := Key(s1, r1);
    assert s1 == k[..|s1|] && s2 == k[..|s2|];
    assert Decimal(r1) == k[|s1| + 1..] && Decimal(r2) == k[|s2| + 1..];
    DecimalInjective(r1, r2);
  }

  // ---------------------------------------------------------------- one conversation

  predicate Has(fs: seq<Fragment>, seqNo: nat) {
    exists i :: 0 <= i < |fs| && fs[i].seqNo == seqNo
  }

  predicate DistinctSeqs(fs: seq<Fragment>) {
    forall i, j :: 0 <= i < j < |fs| ==> fs[i].seqNo != fs[j].seqNo
  }

  predicate Sorted(fs: seq<Fragment>) {
    forall i, j :: 0 <= i < j < |fs| ==> fs[i].seqNo <= fs[j].seqNo
  }

  function Insert(f: Fragment, fs: seq<Fragment>): (r: seq<Fragment>)
    ensures |r| == |fs| + 1
  {
    if fs == [] || f.seqNo <= fs[0].seqNo then [f] + fs else [fs[0]] + Insert(f, fs[1..])
  }

  /** sort.Slice by sequence number. */
  function SortBySeq(fs: seq<Fragment>): (r: seq<Fragment>)
    ensures |r| == |fs|
  {
    if fs == [] then [] else Insert(fs[|fs| - 1], SortBySeq(fs[..|fs| - 1]))
  }

  ghost predicate SameMembers(r: seq<Fragment>, q: seq<Fragment>) {
    forall x :: x in r <==> x in q
  }

  lemma {:induction false} InsertMembers(f: Fragment, fs: seq<Fragment>)
    ensures forall x :: x in Insert(f, fs) <==> x == f || x in fs
    ensures multiset(Insert(f, fs)) == multiset(fs) + multiset{f}
  {
    if fs != [] && f.seqNo > fs[0].seqNo {
      InsertMembers(f, fs[1..]);
      assert fs == [fs[0]] + fs[1..];
    }
  }

  lemma SortedCons(f: Fragment, tail: seq<Fragment>)
    requires Sorted(tail) && forall x :: x in tail ==> f.seqNo <= x.seqNo
    ensures Sorted([f] + tail)
  {
  }

  lemma SortedHead(fs: seq<Fragment>)
    requires Sorted(fs) && fs != []
    ensures Sorted(fs[1..]) && forall x :: x in fs ==> fs[0].seqNo <= x.seqNo
  {
  }

  lemma {:induction false} InsertSorted(f: Fragment, fs: seq<Fragment>)
    requires Sorted(fs)
    ensures Sorted(Insert(f, fs))
  {
    hide Sorted;
    if fs == [] {
      SortedSingle(f);
    } else {
      SortedHead(fs);
      InsertMembers(f, fs[1..]);
      if f.seqNo > fs[0].seqNo {
        InsertSorted(f, fs[1..]);
        SortedCons(fs[0], Insert(f, fs[1..]));
      } else {
        SortedCons(f, fs);
      }
    }
  }

  lemma SortedSingle(f: Fragment)
    ensures Sorted([f] + [])
  {
  }

  /** The sort is one: sorted, and the same fragments the same number of times. */
  lemma {:induction false} SortIsASort(fs: seq<Fragment>)
    ensures Sorted(SortBySeq(fs)) && multiset(SortBySeq(fs)) == multiset(fs) && SameMembers(SortBySeq(fs), fs)
  {
    if fs != [] {
      var front, f := fs[..|fs| - 1], fs[|fs| - 1];
      SortIsASort(front);
      InsertSorted(f, SortBySeq(front));
      InsertMembers(f, SortBySeq(front));
      assert fs == front + [f];
    }
  }

  function Contents(fs: seq<Fragment>): string {
    if fs == [] then "" else Contents(fs[..|fs| - 1]) + fs[|fs| - 1].content
  }

  /** What Add does to the fragments of one conversation ([] is no entry): the fragments kept and
      the message, if it is complete. */
  function Step(fs: seq<Fragment>, f: Fragment): (r: (seq<Fragment>, Option<string>)) {
    if Has(fs, f.seqNo) then (fs, None)
    else if |fs| + 1 != f.total then (fs + [f], None)
    else ([], Some(Contents(SortBySeq(fs + [f]))))
  }

  /** The parts of a message by sequence number. */
  type Parts = map<nat, string>

  /** A part's content by number: the first fragment with that number counts. */
  function FirstParts(fs: seq<Fragment>): (p: Parts)
    ensures forall s: nat :: s in p <==> Has(fs, s)
  {
    if fs == [] then map[]
    else
      var p, f := FirstParts(fs[..|fs| - 1]), fs[|fs| - 1];
      assert forall s: nat :: Has(fs, s) <==> Has(fs[..|fs| - 1], s) || s == f.seqNo;
      if f.seqNo in p then p else p[f.seqNo := f.content]
  }

  ghost predicate Greatest(p: Parts, k: nat) {
    k in p && forall j: nat :: j in p ==> j <= k
  }

  lemma {:induction false} GreatestKeyExists(p: Parts, k: nat)
    requires k in p
    ensures exists g: nat :: Greatest(p, g)
    decreases |p|
  {
    var rest := p - {k};
    assert forall j: nat :: j in p ==> j == k || j in rest;
    if j: nat :| j in rest {
      GreatestKeyExists(rest, j);
      var m: nat :| Greatest(rest, m);
      assert Greatest(p, if m > k then m else k);
    } else {
      assert Greatest(p, k);
    }
  }

  /** The parts joined in ascending order of their numbers. */
  ghost function Join(p: Parts): string
    decreases |p|
  {
    if exists k: nat :: k in p then
      var k: nat :| k in p;
      GreatestKeyExists(p, k);
      var g: nat :| Greatest(p, g);
      Join(p - {g}) + p[g]
    else ""
  }

  /** Fragments with distinct numbers are told apart by their parts map. */
  lemma {:induction false} PartsAt(fs: seq<Fragment>, i: nat)
    requires DistinctSeqs(fs) && i < |fs|
    ensures fs[i].seqNo in FirstParts(fs) && FirstParts(fs)[fs[i].seqNo] == fs[i].content
  {
    var front, f := fs[..|fs| - 1], fs[|fs| - 1];
    assert !Has(front, f.seqNo);
    assert f.seqNo !in FirstParts(front);
    assert Has(fs, fs[i].seqNo);
    if i < |fs| - 1 {
      PartsAt(front, i);
      assert front[i] == fs[i];
    }
  }

  lemma PartsUnique(fs: seq<Fragment>, p: Parts)
    requires DistinctSeqs(fs) && forall s: nat :: s in p <==> Has(fs, s)
    requires forall i :: 0 <= i < |fs| ==> fs[i].seqNo in p && p[fs[i].seqNo] == fs[i].content
    ensures p == FirstParts(fs)
  {
    var q := FirstParts(fs);
    forall s: nat | s in q ensures q[s] == p[s] {
      var i :| 0 <= i < |fs| && fs[i].seqNo == s;
      PartsAt(fs, i);
    }
    SameMap(p, q);
  }

  lemma SameMap(p: Parts, q: Parts)
    requires forall s: nat :: s in p <==> s in q
    requires forall s: nat :: s in q ==> q[s] == p[s]
    ensures p == q
  {
  }

  lemma {:induction false} InsertDistinct(f: Fragment, fs: seq<Fragment>)
    requires DistinctSeqs(fs) && !Has(fs, f.seqNo)
    ensures DistinctSeqs(Insert(f, fs))
  {
    if fs != [] && f.seqNo > fs[0].seqNo {
      InsertDistinct(f, fs[1..]);
      var tail := Insert(f, fs[1..]);
      InsertMembers(f, fs[1..]);
      forall j | 0 <= j < |tail| ensures tail[j].seqNo != fs[0].seqNo {
        assert tail[j] in tail;
      }
    }
  }

  lemma SameMembersHas(r: seq<Fragment>, q: seq<Fragment>, x: nat)
    requires SameMembers(r, q)
    ensures Has(r, x) == Has(q, x)
  {
    if i :| 0 <= i < |r| && r[i].seqNo == x { assert r[i] in q; }
    if i :| 0 <= i < |q| && q[i].seqNo == x { assert q[i] in r; }
  }

  lemma {:induction false} SortDistinct(fs: seq<Fragment>)
    requires DistinctSeqs(fs)
    ensures DistinctSeqs(SortBySeq(fs))
  {
    if fs != [] {
      var front, f := fs[..|fs| - 1], fs[|fs| - 1];
      SortDistinct(front);
      SortIsASort(front);
      SameMembersHas(SortBySeq(front), front, f.seqNo);
      InsertDistinct(f, SortBySeq(front));
    }
  }

  /** Sorting keeps the parts: the same fragments under the same numbers. */
  lemma SortKeepsParts(fs: seq<Fragment>)
    requires DistinctSeqs(fs)
    ensures FirstParts(SortBySeq(fs)) == FirstParts(fs)
  {
    hide FirstParts, SortBySeq, DistinctSeqs;
    var r := SortBySeq(fs);
    SortIsASort(fs);
    SortDistinct(fs);
    forall i | 0 <= i < |r| ensures r[i].seqNo in FirstParts(fs) && FirstParts(fs)[r[i].seqNo] == r[i].content {
      assert r[i] in fs;
      var j :| 0 <= j < |fs| && fs[j] == r[i];
      PartsAt(fs, j);
    }
    forall x: nat ensures x in FirstParts(fs) <==> Has(r, x) {
      SameMembersHas(r, fs, x);
    }
    PartsUnique(r, FirstParts(fs));
  }

  /** Reading sorted fragments off is joining their parts. */
  lemma {:induction false} SortedReadsAsJoin(fs: seq<Fragment>)
    requires Sorted(fs) && DistinctSeqs(fs)
    ensures Contents(fs) == Join(FirstParts(fs))
  {
    if fs != [] {
      var front, f := fs[..|fs| - 1], fs[|fs| - 1];
      var p := FirstParts(fs);
      assert !Has(front, f.seqNo);
      assert Greatest(p, f.seqNo);
      assert p - {f.seqNo} == FirstParts(front);
      SortedReadsAsJoin(front);
    }
  }

  // ---------------------------------------------------------------- one conversation over time

  function Run(fs: seq<Fragment>, fragments: seq<Fragment>): (r: (seq<Fragment>, seq<Option<string>>))
    ensures |r.1| == |fragments|
  {
    if fragments == [] then (fs, [])
    else
      var (mid, outs) := Run(fs, fragments[..|fragments| - 1]);
      var (end, out) := Step(mid, fragments[|fragments| - 1]);
      (end, outs + [out])
  }

  predicate AgreeOnTotal(fs: seq<Fragment>, total: int) {
    forall i :: 0 <= i < |fs| ==> fs[i].total == total
  }

  lemma {:induction false} PartsCount(fs: seq<Fragment>)
    requires DistinctSeqs(fs)
    ensures |FirstParts(fs)| == |fs|
  {
    if fs != [] {
      var front, f := fs[..|fs| - 1], fs[|fs| - 1];
      PartsCount(front);
      assert !Has(front, f.seqNo);
    }
  }

  lemma DistinctOneMore(kept: seq<Fragment>, f: Fragment)
    requires DistinctSeqs(kept) && !Has(kept, f.seqNo)
    ensures DistinctSeqs(kept + [f])
  {
  }

  /** One more kept fragment is one more part. */
  lemma KeepOne(kept: seq<Fragment>, f: Fragment)
    requires DistinctSeqs(kept) && !Has(kept, f.seqNo)
    ensures DistinctSeqs(kept + [f]) && FirstParts(kept + [f]) == FirstParts(kept)[f.seqNo := f.content]
    ensures |FirstParts(kept + [f])| == |kept| + 1
  {
    hide DistinctSeqs;
    DistinctOneMore(kept, f);
    assert (kept + [f])[..|kept|] == kept;
    PartsCount(kept + [f]);
  }

  lemma {:induction false} CollectOne(kept: seq<Fragment>, arrived: seq<Fragment>, f: Fragment)
    requires DistinctSeqs(kept) && FirstParts(kept) == FirstParts(arrived) && |kept| == |FirstParts(arrived)|
    requires |FirstParts(arrived + [f])| < f.total
    ensures var (kept', out) := Step(kept, f);
            && DistinctSeqs(kept') && FirstParts(kept') == FirstParts(arrived + [f])
            && |kept'| == |FirstParts(arrived + [f])| && out == None
  {
    hide Contents, SortBySeq, DistinctSeqs;
    assert (arrived + [f])[..|arrived|] == arrived;
    assert Has(kept, f.seqNo) <==> f.seqNo in FirstParts(kept);
    if !Has(kept, f.seqNo) {
      KeepOne(kept, f);
    }
  }

  lemma {:induction false} RunLast(arrived: seq<Fragment>, last: Fragment)
    ensures var (kept, outs) := Run([], arrived);
            var (end, out) := Step(kept, last);
            Run([], arrived + [last]) == (end, outs + [out])
  {
    assert (arrived + [last])[..|arrived|] == arrived;
  }

  /** Nothing is complete yet, and exactly the first copy of each part is kept. */
  ghost predicate Uncompleted(arrived: seq<Fragment>) {
    var (kept, outs) := Run([], arrived);
    && DistinctSeqs(kept) && FirstParts(kept) == FirstParts(arrived) && |kept| == |FirstParts(arrived)|
    && forall i :: 0 <= i < |outs| ==> outs[i] == None
  }

  lemma UncompletedNext(front: seq<Fragment>, f: Fragment)
    requires Uncompleted(front) && |FirstParts(front + [f])| < f.total
    ensures Uncompleted(front + [f])
  {
    hide FirstParts, DistinctSeqs, Step, Run;
    RunLast(front, f);
    CollectOne(Run([], front).0, front, f);
  }

  /** Before the last missing part arrives nothing is complete. */
  lemma {:induction false} Collecting(arrived: seq<Fragment>, total: int)
    requires AgreeOnTotal(arrived, total) && |FirstParts(arrived)| < total
    ensures Uncompleted(arrived)
  {
    if arrived != [] {
      hide Uncompleted;
      var front, f := arrived[..|arrived| - 1], arrived[|arrived| - 1];
      assert arrived == front + [f];
      Collecting(front, total);
      UncompletedNext(front, f);
    }
  }

  lemma {:induction false} SamePartsNext(a: seq<Fragment>, b: seq<Fragment>, f: Fragment)
    requires FirstParts(a) == FirstParts(b)
    ensures FirstParts(a + [f]) == FirstParts(b + [f])
  {
    assert (a + [f])[..|a|] == a && (b + [f])[..|b|] == b;
  }

  /** Distinct fragments, sorted and read off, are their parts joined. */
  lemma SortedContents(fs: seq<Fragment>)
    requires DistinctSeqs(fs)
    ensures Contents(SortBySeq(fs)) == Join(FirstParts(fs))
  {
    hide FirstParts, Join, Contents, SortBySeq, DistinctSeqs, Sorted;
    SortKeepsParts(fs);
    SortDistinct(fs);
    SortIsASort(fs);
    SortedReadsAsJoin(SortBySeq(fs));
  }

  /** The step that takes the last missing part. */
  lemma LastStep(kept: seq<Fragment>, arrived: seq<Fragment>, last: Fragment)
    requires DistinctSeqs(kept) && FirstParts(kept) == FirstParts(arrived) && |kept| == last.total - 1
    requires !Has(arrived, last.seqNo)
    ensures Step(kept, last) == ([], Some(Join(FirstParts(arrived + [last]))))
  {
    hide FirstParts, Join, Contents, SortBySeq, DistinctSeqs;
    assert Has(kept, last.seqNo) <==> last.seqNo in FirstParts(kept);
    KeepOne(kept, last);
    SamePartsNext(kept, arrived, last);
    SortedContents(kept + [last]);
  }

  /** Completion: when all but one of the parts of a message have arrived, in any order and with
      any duplicates, the missing part completes it, the message is the parts joined in
      ascending order, and the entry is gone. Nothing before it completes. */
  lemma {:induction false} CompletesExactlyOnLastPart(arrived: seq<Fragment>, last: Fragment)
    requires AgreeOnTotal(arrived, last.total)
    requires |FirstParts(arrived)| == last.total - 1 && !Has(arrived, last.seqNo)
    ensures var (kept, outs) := Run([], arrived + [last]);
            && kept == [] && outs[|arrived|] == Some(Join(FirstParts(arrived + [last])))
            && forall i :: 0 <= i < |arrived| ==> outs[i] == None
  {
    hide Run, FirstParts, Join, DistinctSeqs, Step, Has;
    Collecting(arrived, last.total);
    LastStep(Run([], arrived).0, arrived, last);
    RunLast(arrived, last);
  }

  /** Order independence: two arrivals of the same parts, in whatever orders and with whatever
      duplicates, give the same message. */
  lemma {:induction false} OrderDoesNotMatter(a: seq<Fragment>, lastA: Fragment, b: seq<Fragment>, lastB: Fragment)
    requires AgreeOnTotal(a, lastA.total) && AgreeOnTotal(b, lastB.total)
    requires |FirstParts(a)| == lastA.total - 1 && !Has(a, lastA.seqNo)
    requires |FirstParts(b)| == lastB.total - 1 && !Has(b, lastB.seqNo)
    requires FirstParts(a + [lastA]) == FirstParts(b + [lastB])
    ensures Run([], a + [lastA]).1[|a|] == Run([], b + [lastB]).1[|b|]
  {
    hide Run, FirstParts, Join;
    CompletesExactlyOnLastPart(a, lastA);
    CompletesExactlyOnLastPart(b, lastB);
  }

  lemma {:induction false} JoinOfTwo(s: nat, a: string, t: nat, b: string)
    requires s < t
    ensures Join(map[s := a, t := b]) == a + b
  {
    var p: Parts := map[s := a, t := b];
    var one: Parts := map[s := a];
    var none: Parts := map[];
    assert Greatest(p, t) && p - {t} == one;
    assert Greatest(one, s) && one - {s} == none;
    assert Join(none) == "";
    assert Join(one) == "" + a == a;
  }

  /** Two parts, in either order of arrival: the one with the smaller number comes first. */
  lemma {:induction false} TwoParts(a: Fragment, b: Fragment)
    requires a.total == 2 && b.total == 2 && a.seqNo < b.seqNo
    ensures Run([], [a] + [b]).1 == [None, Some(a.content + b.content)]
    ensures Run([], [b] + [a]).1 == [None, Some(a.content + b.content)]
  {
    hide Run, Join;
    var p := map[a.seqNo := a.content, b.seqNo := b.content];
    JoinOfTwo(a.seqNo, a.content, b.seqNo, b.content);
    PartsOfTwo(a, b);
    PartsOfTwo(b, a);
    assert p == map[b.seqNo := b.content, a.seqNo := a.content];
    hide FirstParts;
    CompletesExactlyOnLastPart([a], b);
    CompletesExactlyOnLastPart([b], a);
  }

  lemma {:induction false} PartsOfTwo(a: Fragment, b: Fragment)
    requires a.seqNo != b.seqNo
    ensures FirstParts([a]) == map[a.seqNo := a.content] && !Has([a], b.seqNo)
    ensures FirstParts([a] + [b]) == map[a.seqNo := a.content, b.seqNo := b.content]
  {
    assert [a][..0] == [] && ([a] + [b])[..1] == [a];
  }

  // ---------------------------------------------------------------- all conversations together

  datatype Op = Receive(sender: string, concat: Concat, content: string, now: nat) | Clean(ttl: int, at: int)

  function EntryOf(cache: Cache, key: string): seq<Fragment> {
    if key in cache then cache[key] else []
  }

  function FragmentOf(c: Concat, content: string, now: nat): Fragment {
    Fragment(c.total, c.seqNo, content, now)
  }

  /** Add: the new cache and, for a concatenated part, what is returned. */
  function AddSpec(cache: Cache, sender: string, c: Concat, content: string, now: nat): (r: (Cache, Option<string>)) {
    if !c.isConcat then (cache, Some(content))
    else
      var key := Key(sender, c.ref);
      var (kept, out) := Step(EntryOf(cache, key), FragmentOf(c, content, now));
      (if kept == [] then cache - {key} else cache[key := kept], out)
  }

  function Latest(fs: seq<Fragment>): (t: nat)
    ensures forall i :: 0 <= i < |fs| ==> fs[i].time <= t
  {
    if fs == [] then 0
    else
      var t := Latest(fs[..|fs| - 1]);
      if fs[|fs| - 1].time > t then fs[|fs| - 1].time else t
  }

  /** The entry's newest fragment is no later than the cutoff, or carries no time at all. */
  predicate Stale(fs: seq<Fragment>, cutoff: int) {
    Latest(fs) == 0 || Latest(fs) <= cutoff
  }

  function CleanSpec(cache: Cache, cutoff: int): Cache {
    map k | k in cache && !Stale(cache[k], cutoff) :: cache[k]
  }

  function StepOp(cache: Cache, op: Op): Cache {
    match op
    case Receive(sender, c, content, now) => AddSpec(cache, sender, c, content, now).0
    case Clean(ttl, at) => CleanSpec(cache, at - ttl)
  }

  function RunOps(cache: Cache, ops: seq<Op>): Cache {
    if ops == [] then cache else StepOp(RunOps(cache, ops[..|ops| - 1]), ops[|ops| - 1])
  }

  predicate IsPartOf(op: Op, key: string) {
    op.Receive? && op.concat.isConcat && Key(op.sender, op.concat.ref) == key
  }

  /** The fragments of one conversation, in order of arrival. */
  function PartsFor(ops: seq<Op>, key: string): seq<Fragment> {
    if ops == [] then []
    else
      var op := ops[|ops| - 1];
      PartsFor(ops[..|ops| - 1], key) + if IsPartOf(op, key) then [FragmentOf(op.concat, op.content, op.now)] else []
  }

  /** What Add returned for the parts of one conversation, in order. */
  function OutsFor(cache: Cache, ops: seq<Op>, key: string): seq<Option<string>> {
    if ops == [] then []
    else
      var op, front := ops[|ops| - 1], ops[..|ops| - 1];
      OutsFor(cache, front, key) +
      if IsPartOf(op, key) then [AddSpec(RunOps(cache, front), op.sender, op.concat, op.content, op.now).1] else []
  }

  /** No cleanup in the run takes this conversation's entry away. */
  predicate NeverCleaned(cache: Cache, ops: seq<Op>, key: string) {
    ops == [] ||
    (&& NeverCleaned(cache, ops[..|ops| - 1], key)
     && (ops[|ops| - 1].Clean? ==>
           EntryOf(RunOps(cache, ops), key) == EntryOf(RunOps(cache, ops[..|ops| - 1]), key)))
  }

  lemma {:induction false} OtherConversation(cache: Cache, op: Op, key: string)
    requires !IsPartOf(op, key) && op.Receive?
    ensures EntryOf(StepOp(cache, op), key) == EntryOf(cache, key)
  {
    hide Step, Key;
  }

  lemma {:induction false} OwnPart(cache: Cache, op: Op, key: string)
    requires IsPartOf(op, key)
    ensures var (kept, out) := Step(EntryOf(cache, key), FragmentOf(op.concat, op.content, op.now));
            && EntryOf(StepOp(cache, op), key) == kept
            && AddSpec(cache, op.sender, op.concat, op.content, op.now).1 == out
  {
    hide Step, Key;
  }

  /** Conversations do not disturb each other: whatever is interleaved, each behaves as if its
      own fragments were all that arrived. */
  lemma {:induction false} ConversationsAreIndependent(cache: Cache, ops: seq<Op>, key: string)
    requires NeverCleaned(cache, ops, key)
    ensures (EntryOf(RunOps(cache, ops), key), OutsFor(cache, ops, key)) == Run(EntryOf(cache, key), PartsFor(ops, key))
  {
    hide Step, Key, EntryOf, AddSpec, CleanSpec, IsPartOf;
    if ops != [] {
      var front, op := ops[..|ops| - 1], ops[|ops| - 1];
      ConversationsAreIndependent(cache, front, key);
      if IsPartOf(op, key) {
        OwnPart(RunOps(cache, front), op, key);
        var parts := PartsFor(ops, key);
        assert parts[..|parts| - 1] == PartsFor(front, key);
      } else {
        assert PartsFor(ops, key) == PartsFor(front, key) && OutsFor(cache, ops, key) == OutsFor(cache, front, key);
        if op.Receive? {
          OtherConversation(RunOps(cache, front), op, key);
        }
      }
    }
  }

  /** The whole claim: a conversation that starts with no entry and is not cleaned away
      completes exactly on its last missing part, with the parts in ascending order, whatever
      the order, the duplicates, and the traffic of other conversations. */
  lemma ReassemblyIsOrderIndependent(cache: Cache, ops: seq<Op>, sender: string, ref: int, arrived: seq<Fragment>, last: Fragment)
    requires var key := Key(sender, ref); key !in cache && NeverCleaned(cache, ops, key)
    requires PartsFor(ops, Key(sender, ref)) == arrived + [last]
    requires AgreeOnTotal(arrived, last.total)
    requires |FirstParts(arrived)| == last.total - 1 && !Has(arrived, last.seqNo)
    ensures var key := Key(sender, ref);
            var outs := OutsFor(cache, ops, key);
            && |outs| == |arrived| + 1 && outs[|arrived|] == Some(Join(FirstParts(arrived + [last])))
            && (forall i :: 0 <= i < |arrived| ==> outs[i] == None)
            && EntryOf(RunOps(cache, ops), key) == []
  {
    hide Run, FirstParts, Join, OutsFor, RunOps, PartsFor, NeverCleaned, Key;
    ConversationsAreIndependent(cache, ops, Key(sender, ref));
    CompletesExactlyOnLastPart(arrived, last);
  }

  // ---------------------------------------------------------------- single calls

  /** A message that is no part of another is complete at once, and nothing is kept of it. */
  lemma {:induction false} WholeMessage(cache: Cache, sender: string, c: Concat, content: string, now: nat)
    requires !c.isConcat
    ensures AddSpec(cache, sender, c, content, now) == (cache, Some(content))
  {
  }

  /** A part whose number is there already is dropped. Any other is kept, unless with it there are as many parts
      as it says itself, whatever the earlier ones said: then the message is complete and its entry gone. Other
      entries stay as they are. */
  lemma {:induction false} PartArrives(cache: Cache, sender: string, c: Concat, content: string, now: nat, other: string)
    requires c.isConcat && other != Key(sender, c.ref) && DistinctSeqs(EntryOf(cache, Key(sender, c.ref)))
    ensures var key, f := Key(sender, c.ref), Fragment(c.total, c.seqNo, content, now);
            var fs := EntryOf(cache, key);
            var (after, out) := AddSpec(cache, sender, c, content, now);
            && (other in after <==> other in cache) && (other in cache ==> after[other] == cache[other])
            && if exists i :: 0 <= i < |fs| && fs[i].seqNo == c.seqNo then EntryOf(after, key) == fs && out == None
               else if |fs| + 1 == c.total then key !in after && out == Some(Join(FirstParts(fs + [f])))
               else EntryOf(after, key) == fs + [f] && DistinctSeqs(fs + [f]) && out == None
  {
    hide Key, Join, FirstParts, SortBySeq, Contents, DistinctSeqs;
    var fs, f := EntryOf(cache, Key(sender, c.ref)), FragmentOf(c, content, now);
    if !Has(fs, c.seqNo) {
      DistinctOneMore(fs, f);
      SortedContents(fs + [f]);
    }
  }

  /** A cleanup keeps an entry, as it is, if and only if one of its fragments carries a time and that is after
      the cutoff. */
  lemma {:induction false} CleanKeeps(cache: Cache, cutoff: int, key: string)
    ensures key in CleanSpec(cache, cutoff) <==>
              key in cache && exists i :: 0 <= i < |cache[key]| && cache[key][i].time > 0 && cache[key][i].time > cutoff
    ensures key in CleanSpec(cache, cutoff) ==> CleanSpec(cache, cutoff)[key] == cache[key]
  {
    hide Latest;
    if key in cache {
      LatestIsThere(cache[key]);
    }
  }

  /** Some fragment carries a time, after the cutoff. */
  predicate Recent(fs: seq<Fragment>, cutoff: int) {
    exists i :: 0 <= i < |fs| && fs[i].time > 0 && fs[i].time > cutoff
  }

  lemma {:induction false} CleanKeepsRecent(cache: Cache, cutoff: int)
    ensures forall k :: k in CleanSpec(cache, cutoff) <==> k in cache && Recent(cache[k], cutoff)
    ensures forall k :: k in CleanSpec(cache, cutoff) ==> CleanSpec(cache, cutoff)[k] == cache[k]
  {
    forall k ensures k in CleanSpec(cache, cutoff) <==> k in cache && Recent(cache[k], cutoff) {
      CleanKeeps(cache, cutoff, k);
    }
  }

  lemma {:induction false} LatestIsThere(fs: seq<Fragment>)
    ensures Latest(fs) > 0 ==> exists i :: 0 <= i < |fs| && fs[i].time == Latest(fs)
  {
    if fs != [] {
      var front := fs[..|fs| - 1];
      LatestIsThere(front);
      if Latest(front) > 0 && Latest(fs) == Latest(front) {
        var i :| 0 <= i < |front| && front[i].time == Latest(front);
        assert fs[i].time == Latest(fs);
      }
    }
  }

  // ---------------------------------------------------------------- the object

  class Reassembler {
    var cache: Cache

    constructor ()
      ensures cache == map[]
    {
      cache := map[];
    }

    method Add(sender: string, c: Concat, content: string, now: nat) returns (complete: bool, full: string)
      modifies this
      ensures var (after, out) := AddSpec(old(cache), sender, c, content, now);
              && cache == after && complete == out.Some? && full == (if out.Some? then out.value else "")
      ensures !c.isConcat ==> complete && full == content && cache == old(cache)
    {
      hide Key;
      if !c.isConcat {
        return true, content;
      }
      var key := Key(sender, c.ref);
      var fragments := EntryOf(cache, key);
      for i := 0 to |fragments|
        invariant forall j :: 0 <= j < i ==> fragments[j].seqNo != c.seqNo
      {
        if fragments[i].seqNo == c.seqNo {
          assert Has(fragments, c.seqNo);
          assert Step(fragments, FragmentOf(c, content, now)) == (fragments, None);
          assert fragments != [] && cache == cache[key := fragments];
          return false, "";
        }
      }
      assert !Has(fragments, c.seqNo);
      fragments := fragments + [FragmentOf(c, content, now)];
      cache := cache[key := fragments];
      if |fragments| != c.total {
        return false, "";
      }
      fragments := SortBySeq(fragments);
      full := "";
      for i := 0 to |fragments|
        invariant full == Contents(fragments[..i])
      {
        assert fragments[..i + 1][..i] == fragments[..i];
        full := full + fragments[i].content;
      }
      assert fragments[..|fragments|] == fragments;
      cache := cache - {key};
      complete := true;
    }

    method Cleanup(ttl: int, now: int)
      modifies this
      ensures cache == CleanSpec(old(cache), now - ttl)
      ensures forall k :: k in cache <==> k in old(cache) && Recent(old(cache)[k], now - ttl)
      ensures forall k :: k in cache ==> cache[k] == old(cache)[k]
    {
      hide Recent;
      var cutoff := now - ttl;
      var todo := cache.Keys;
      while todo != {}
        invariant todo <= old(cache).Keys
        invariant forall k :: k in cache <==> k in old(cache) && (k in todo || !Stale(old(cache)[k], cutoff))
        invariant forall k :: k in cache ==> cache[k] == old(cache)[k]
        decreases |todo|
      {
        var key :| key in todo;
        var latest := 0;
        var fragments := cache[key];
        for i := 0 to |fragments|
          invariant latest == Latest(fragments[..i])
        {
          assert fragments[..i + 1][..i] == fragments[..i];
          if fragments[i].time > latest {
            latest := fragments[i].time;
          }
        }
        assert fragments[..|fragments|] == fragments;
        if latest == 0 || latest <= cutoff {
          cache := cache - {key};
        }
        todo := todo - {key};
      }
      CleanKeepsRecent(old(cache), cutoff);
    }
  }
}
