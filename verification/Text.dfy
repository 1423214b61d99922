/** White space and trimming, as the source's string functions see them. */
module Text {

  /** White space as unicode.IsSpace has it. */
  predicate IsSpace(c: char) {
    var u := c as int;
    || 0x09 <= u <= 0x0D || u == 0x20 || u == 0x85 || u == 0xA0 || u == 0x1680 || 0x2000 <= u <= 0x200A
    || u == 0x2028 || u == 0x2029 || u == 0x202F || u == 0x205F || u == 0x3000
  }

  function TrimLeft(s: string, p: char -> bool): (r: string)
    ensures |r| <= |s| && r == s[|s| - |r|..] && (r != "" ==> !p(r[0]))
  {
    if s != "" && p(s[0]) then TrimLeft(s[1..], p) else s
  }

  function TrimRight(s: string, p: char -> bool): (r: string)
    ensures |r| <= |s| && r == s[..|r|] && (r != "" ==> !p(r[|r| - 1]))
  {
    if s != "" && p(s[|s| - 1]) then TrimRight(s[..|s| - 1], p) else s
  }

  function Trim(s: string, p: char -> bool): (r: string)
    ensures |r| <= |s|
  {
    TrimRight(TrimLeft(s, p), p)
  }

  lemma TrimLeftKeeps(s: string, p: char -> bool)
    ensures TrimLeft(s, p) == s <==> s == "" || !p(s[0])
  {
  }

  lemma TrimRightKeeps(s: string, p: char -> bool)
    ensures TrimRight(s, p) == s <==> s == "" || !p(s[|s| - 1])
  {
  }

  lemma {:induction false} TrimKeeps(s: string, p: char -> bool)
    ensures Trim(s, p) == s <==> s == "" || (!p(s[0]) && !p(s[|s| - 1]))
  {
    TrimLeftKeeps(s, p);
    TrimRightKeeps(s, p);
    if |TrimLeft(s, p)| == |s| { assert TrimLeft(s, p) == s; }
  }

  lemma {:induction false} SameLength(s: string, p: char -> bool)
    requires |Trim(s, p)| == |s|
    ensures Trim(s, p) == s
  {
    if |TrimLeft(s, p)| == |s| { assert TrimLeft(s, p) == s; }
  }

  /** Trimming leaves nothing to trim. */
  lemma {:induction false} TrimmedEnds(s: string, p: char -> bool)
    ensures var r := Trim(s, p); r == "" || (!p(r[0]) && !p(r[|r| - 1]))
  {
    var l, r := TrimLeft(s, p), Trim(s, p);
    if r != "" { assert r[0] == l[0]; }
  }

  predicate All(s: string, p: char -> bool) {
    forall i :: 0 <= i < |s| ==> p(s[i])
  }

  lemma {:induction false} TrimLeftStrips(lead: string, rest: string, p: char -> bool)
    requires All(lead, p) && (rest != "" ==> !p(rest[0]))
    ensures TrimLeft(lead + rest, p) == rest
  {
    if lead == "" {
      assert lead + rest == rest;
    } else {
      assert (lead + rest)[1..] == lead[1..] + rest;
      TrimLeftStrips(lead[1..], rest, p);
    }
  }

  lemma {:induction false} TrimRightStrips(rest: string, trail: string, p: char -> bool)
    requires All(trail, p) && (rest != "" ==> !p(rest[|rest| - 1]))
    ensures TrimRight(rest + trail, p) == rest
  {
    if trail == "" {
      assert rest + trail == rest;
    } else {
      assert (rest + trail)[..|rest + trail| - 1] == rest + trail[..|trail| - 1];
      TrimRightStrips(rest, trail[..|trail| - 1], p);
    }
  }

  /** Trimming takes exactly the ends off. */
  lemma {:induction false} TrimStrips(lead: string, core: string, trail: string, p: char -> bool)
    requires All(lead, p) && All(trail, p) && (core != "" ==> !p(core[0]) && !p(core[|core| - 1]))
    ensures Trim(lead + core + trail, p) == core
  {
    if core == "" {
      assert lead + core + trail == (lead + trail) + "";
      TrimLeftStrips(lead + trail, "", p);
    } else {
      assert lead + core + trail == lead + (core + trail);
      TrimLeftStrips(lead, core + trail, p);
      TrimRightStrips(core, trail, p);
    }
  }
}
