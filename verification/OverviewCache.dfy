/** The eSIM overview cache: what its locked sections do, and the object they belong to. */
module OverviewCache {
  import opened Wrappers
  import opened Text

  datatype ProfileState = Disabled | Enabled

  datatype Profile = Profile(iccid: string, name: string, state: ProfileState, stateText: string)

  datatype Group = Group(aid: string, profiles: seq<Profile>)

  datatype Chip = Chip(eids: seq<string>, product: string)

  datatype Overview = Overview(chip: Option<Chip>, groups: seq<Group>)

  /** The fields guarded by cacheMu that these operations touch. */
  datatype Cache = Cache(generation: nat, overview: Option<Overview>, lastErr: Option<string>,
                         chip: Option<Chip>, discovered: seq<string>)

  // ---------------------------------------------------------------- ICCIDs

  predicate IsQuote(c: char) { c == '"' }

  predicate IsFiller(c: char) { c == 'F' || c == 'f' }

  /** normalizeICCIDValue: spaces, then quotes, then trailing fillers. */
  function Normalize(s: string): (r: string)
    ensures |r| <= |s|
  {
    TrimRight(Trim(Trim(s, IsSpace), IsQuote), IsFiller)
  }

  /** isTargetICCIDActive */
  predicate Matches(target: string, current: string) {
    var t, c := Normalize(target), Normalize(current);
    t != "" && c != "" && t == c
  }

  predicate CleanEnd(c: char) { !IsSpace(c) && !IsQuote(c) }

  /** Normalising again changes nothing exactly when no space and no quote is left at either end:
      normalising takes the fillers off last, and may uncover one. */
  lemma SettledIff(s: string)
    ensures var v := Normalize(s);
            Normalize(v) == v <==> v == "" || (CleanEnd(v[0]) && CleanEnd(v[|v| - 1]))
  {
    var v := Normalize(s);
    hide Trim, TrimRight, TrimLeft;
    TrimKeeps(v, IsSpace);
    var w := Trim(v, IsSpace);
    TrimKeeps(w, IsQuote);
    var x := Trim(w, IsQuote);
    TrimRightKeeps(v, IsFiller);
    if |x| < |v| {
      assert Normalize(v) != v;
    } else {
      SameLength(v, IsSpace);
      SameLength(w, IsQuote);
    }
  }

  // ---------------------------------------------------------------- patching

  predicate InProfiles(ps: seq<Profile>, target: string) {
    exists i :: 0 <= i < |ps| && Matches(target, ps[i].iccid)
  }

  predicate InGroups(gs: seq<Group>, target: string) {
    exists i :: 0 <= i < |gs| && InProfiles(gs[i].profiles, target)
  }

  function Marked(p: Profile, target: string): Profile {
    if Matches(target, p.iccid) then p.(state := Enabled, stateText := "已启用")
    else p.(state := Disabled, stateText := "已禁用")
  }

  function MarkProfiles(ps: seq<Profile>, target: string): (r: seq<Profile>)
    ensures |r| == |ps|
  {
    if ps == [] then [] else MarkProfiles(ps[..|ps| - 1], target) + [Marked(ps[|ps| - 1], target)]
  }

  function MarkGroups(gs: seq<Group>, target: string): (r: seq<Group>)
    ensures |r| == |gs|
  {
    if gs == [] then []
    else
      var g := gs[|gs| - 1];
      MarkGroups(gs[..|gs| - 1], target) + [g.(profiles := MarkProfiles(g.profiles, target))]
  }

  lemma {:induction false} MarkProfilesAt(ps: seq<Profile>, target: string, i: nat)
    requires i < |ps|
    ensures MarkProfiles(ps, target)[i] == Marked(ps[i], target)
  {
    hide Marked;
    if i < |ps| - 1 { MarkProfilesAt(ps[..|ps| - 1], target, i); }
  }

  lemma {:induction false} MarkGroupsAt(gs: seq<Group>, target: string, i: nat)
    requires i < |gs|
    ensures MarkGroups(gs, target)[i] == gs[i].(profiles := MarkProfiles(gs[i].profiles, target))
  {
    hide MarkProfiles;
    if i < |gs| - 1 { MarkGroupsAt(gs[..|gs| - 1], target, i); }
  }

  /** patchCachedActiveProfile. The group the caller names is not here: it does not matter. The
      target is normalised once here and once more in every comparison. */
  function Patch(c: Cache, iccid: string): (r: (Cache, bool)) {
    var target := Normalize(iccid);
    if c.overview == None || target == "" || !InGroups(c.overview.value.groups, target) then (c, false)
    else
      var o := c.overview.value;
      (c.(overview := Some(o.(groups := MarkGroups(o.groups, target))), lastErr := None), true)
  }

  /** The cache holds a profile with this ICCID, both normalised. */
  predicate Holds(c: Cache, iccid: string) {
    && c.overview.Some? && Normalize(iccid) != ""
    && exists i, j :: 0 <= i < |c.overview.value.groups| && 0 <= j < |c.overview.value.groups[i].profiles|
         && Normalize(c.overview.value.groups[i].profiles[j].iccid) == Normalize(iccid)
  }

  lemma PatchOfSettled(c: Cache, iccid: string)
    ensures Normalize(Normalize(iccid)) == Normalize(iccid) ==> (Patch(c, iccid).1 <==> Holds(c, iccid))
  {
    hide Normalize;
    if Normalize(Normalize(iccid)) == Normalize(iccid) && c.overview.Some? {
      var gs, target := c.overview.value.groups, Normalize(iccid);
      if InGroups(gs, target) {
        var i :| 0 <= i < |gs| && InProfiles(gs[i].profiles, target);
        var j :| 0 <= j < |gs[i].profiles| && Matches(target, gs[i].profiles[j].iccid);
        assert Normalize(gs[i].profiles[j].iccid) == target;
      }
      if Holds(c, iccid) {
        var i, j :| 0 <= i < |gs| && 0 <= j < |gs[i].profiles| && Normalize(gs[i].profiles[j].iccid) == target;
        assert Matches(target, gs[i].profiles[j].iccid);
        assert InProfiles(gs[i].profiles, target);
      }
    }
  }

  /** A cache with one profile, under this very ICCID. */
  function Only(iccid: string): Cache {
    Cache(0, Some(Overview(None, [Group("", [Profile(iccid, "", Disabled, "")])])), None, None, [])
  }

  /** Patching reports success exactly when the cache holds the target, on every cache, if and only
      if normalising the target once is enough: nothing is left of it, or what is left ends in
      neither a space nor a quote on either side. Otherwise even a cache that holds this very
      ICCID is refused. */
  lemma PatchIsRightIff(iccid: string)
    ensures (forall c: Cache :: Patch(c, iccid).1 <==> Holds(c, iccid)) <==>
            var v := Normalize(iccid); v == "" || (CleanEnd(v[0]) && CleanEnd(v[|v| - 1]))
  {
    hide Normalize, Patch, Holds, CleanEnd;
    SettledIff(iccid);
    if Normalize(Normalize(iccid)) == Normalize(iccid) {
      forall c: Cache ensures Patch(c, iccid).1 <==> Holds(c, iccid) {
        PatchOfSettled(c, iccid);
      }
    } else {
      Refused(iccid);
    }
  }

  lemma Refused(iccid: string)
    requires Normalize(Normalize(iccid)) != Normalize(iccid)
    ensures Holds(Only(iccid), iccid) && !Patch(Only(iccid), iccid).1
  {
    var v := Normalize(iccid);
    NormalizeEmpty();
    hide Normalize;
    var c := Only(iccid);
    var gs := c.overview.value.groups;
    assert gs[0].profiles[0].iccid == iccid;
    assert !InProfiles(gs[0].profiles, v);
  }

  lemma NormalizeEmpty()
    ensures Normalize("") == ""
  {
  }

  lemma {:induction false} CutLast(s: string, p: char -> bool, n: nat)
    requires n + 1 == |s| && p(s[n]) && (n > 0 ==> !p(s[n - 1]))
    ensures TrimRight(s, p) == s[..n]
  {
    TrimRightKeeps(s[..n], p);
  }

  lemma FillerUncovers()
    ensures Normalize("1\" F") == "1\" "
  {
    hide Trim, TrimLeft, TrimRight, Normalize;
    var s := "1\" F";
    TrimKeeps(s, IsSpace);
    TrimKeeps(s, IsQuote);
    CutLast(s, IsFiller, 3);
    assert s[..3] == "1\" ";
    NormalizeIs(s);
  }

  /** Such a target: a quote behind a space and a filler. */
  lemma RefusedExample()
    ensures Normalize("1\" F") == "1\" "
    ensures Holds(Only("1\" F"), "1\" F") && !Patch(Only("1\" F"), "1\" F").1
  {
    hide Holds, Patch, Only, Normalize;
    FillerUncovers();
    SettledIff("1\" F");
    Refused("1\" F");
  }

  /** White space at the ends goes first, then quotes, then fillers at the end. */
  lemma {:induction false} NormalizeStrips(sp1: string, q1: string, core: string, fillers: string, q2: string, sp2: string)
    requires All(sp1, IsSpace) && All(sp2, IsSpace) && All(q1, IsQuote) && All(q2, IsQuote) && All(fillers, IsFiller)
    requires core != "" && CleanEnd(core[0]) && CleanEnd(core[|core| - 1]) && !IsFiller(core[|core| - 1])
    ensures Normalize(sp1 + (q1 + (core + fillers) + q2) + sp2) == core
  {
    hide IsSpace, Trim, TrimRight, Normalize;
    var inner := core + fillers;
    var quoted := q1 + inner + q2;
    assert inner[0] == core[0] && inner[|inner| - 1] == if fillers == "" then core[|core| - 1] else fillers[|fillers| - 1];
    assert quoted[0] == if q1 == "" then inner[0] else q1[0];
    assert quoted[|quoted| - 1] == if q2 == "" then inner[|inner| - 1] else q2[|q2| - 1];
    NoSpaces();
    TrimStrips(sp1, quoted, sp2, IsSpace);
    TrimStrips(q1, inner, q2, IsQuote);
    TrimRightStrips(core, fillers, IsFiller);
    NormalizeIs(sp1 + quoted + sp2);
  }

  lemma NoSpaces()
    ensures !IsSpace('"') && !IsSpace('F') && !IsSpace('f')
  {
  }

  lemma NormalizeIs(s: string)
    ensures Normalize(s) == TrimRight(Trim(Trim(s, IsSpace), IsQuote), IsFiller)
  {
  }

  /** When it succeeds, exactly the matching profiles are enabled, whatever they were before, and
      nothing else about any profile, group or chip changes. */
  lemma PatchEnablesExactly(c: Cache, iccid: string, i: nat, j: nat)
    requires c.overview.Some? && i < |c.overview.value.groups| && j < |c.overview.value.groups[i].profiles|
    ensures Patch(c, iccid).1 ==>
              var before, after := c.overview.value, Patch(c, iccid).0.overview;
              && after.Some? && after.value.chip == before.chip && |after.value.groups| == |before.groups|
              && after.value.groups[i].aid == before.groups[i].aid
              && |after.value.groups[i].profiles| == |before.groups[i].profiles|
              && var p, q := before.groups[i].profiles[j], after.value.groups[i].profiles[j];
                 && q.iccid == p.iccid && q.name == p.name
                 && (q.state == Enabled <==> Matches(Normalize(iccid), p.iccid))
    ensures Patch(c, iccid).1 ==> Patch(c, iccid).0 == c.(overview := Patch(c, iccid).0.overview, lastErr := None)
    ensures !Patch(c, iccid).1 ==> Patch(c, iccid).0 == c
  {
    hide Normalize, Matches;
    var gs, target := c.overview.value.groups, Normalize(iccid);
    MarkGroupsAt(gs, target, i);
    MarkProfilesAt(gs[i].profiles, target, j);
  }

  lemma {:induction false} MarkProfilesTwice(ps: seq<Profile>, target: string)
    ensures MarkProfiles(MarkProfiles(ps, target), target) == MarkProfiles(ps, target)
  {
    hide Matches, MarkProfiles;
    var qs := MarkProfiles(ps, target);
    forall k | 0 <= k < |ps| ensures MarkProfiles(qs, target)[k] == qs[k] {
      MarkProfilesAt(ps, target, k);
      MarkProfilesAt(qs, target, k);
    }
  }

  lemma MarkTwice(gs: seq<Group>, target: string)
    ensures MarkGroups(MarkGroups(gs, target), target) == MarkGroups(gs, target)
  {
    hide MarkProfiles, MarkGroups;
    var hs := MarkGroups(gs, target);
    forall k | 0 <= k < |gs| ensures MarkGroups(hs, target)[k] == hs[k] {
      MarkGroupsAt(gs, target, k);
      MarkGroupsAt(hs, target, k);
      MarkProfilesTwice(gs[k].profiles, target);
    }
  }

  lemma MarkKeepsTarget(gs: seq<Group>, target: string)
    ensures InGroups(MarkGroups(gs, target), target) <==> InGroups(gs, target)
  {
    hide Matches;
    var hs := MarkGroups(gs, target);
    forall k | 0 <= k < |gs| ensures InProfiles(hs[k].profiles, target) <==> InProfiles(gs[k].profiles, target) {
      MarkGroupsAt(gs, target, k);
      MarkKeepsIn(gs[k].profiles, target);
    }
  }

  lemma MarkKeepsIn(ps: seq<Profile>, target: string)
    ensures InProfiles(MarkProfiles(ps, target), target) <==> InProfiles(ps, target)
  {
    hide Matches, MarkProfiles;
    var qs := MarkProfiles(ps, target);
    forall i | 0 <= i < |ps| ensures qs[i].iccid == ps[i].iccid {
      MarkProfilesAt(ps, target, i);
    }
  }

  /** Patching twice is patching once. */
  lemma {:induction false} PatchTwice(c: Cache, iccid: string)
    ensures var (once, ok) := Patch(c, iccid); Patch(once, iccid) == (once, ok)
  {
    hide Normalize, MarkGroups, InGroups;
    if Patch(c, iccid).1 {
      MarkTwice(c.overview.value.groups, Normalize(iccid));
      MarkKeepsTarget(c.overview.value.groups, Normalize(iccid));
    }
  }

  // ---------------------------------------------------------------- the other sections

  /** setOverviewCache: only the generation the load began under may write. */
  function Store(c: Cache, overview: Option<Overview>, err: Option<string>, generation: nat): Cache {
    if generation != c.generation then c
    else c.(overview := overview, lastErr := err, chip := if overview.Some? then overview.value.chip else c.chip)
  }

  /** invalidateOverviewCache */
  function Invalidated(c: Cache): Cache {
    Cache(c.generation + 1, None, None, None, c.discovered)
  }

  /** clearHardwareDiscoveryCachesLocked */
  function Cleared(c: Cache): Cache {
    Cache(c.generation + 1, None, None, None, [])
  }

  /** RefreshOverview before it loads; the chip's product data may be kept. */
  function Reset(c: Cache, reusable: Chip -> bool): Cache {
    Cache(c.generation + 1, None, None, if c.chip.Some? && reusable(c.chip.value) then c.chip else None, [])
  }

  class Manager {
    var overviewGeneration: nat
    var overviewCache: Option<Overview>
    var overviewLastErr: Option<string>
    var chipInfoCache: Option<Chip>
    var discoveredEUICCs: seq<string>

    ghost function Abs(): Cache
      reads this
    {
      Cache(overviewGeneration, overviewCache, overviewLastErr, chipInfoCache, discoveredEUICCs)
    }

    method SetOverviewCache(overview: Option<Overview>, err: Option<string>, generation: nat)
      modifies this
      ensures Abs() == Store(old(Abs()), overview, err, generation)
      ensures generation == old(overviewGeneration) ==>
                && overviewCache == overview && overviewLastErr == err
                && chipInfoCache == if overview.Some? then overview.value.chip else old(chipInfoCache)
      ensures generation != old(overviewGeneration) ==>
                overviewCache == old(overviewCache) && overviewLastErr == old(overviewLastErr) && chipInfoCache == old(chipInfoCache)
      ensures overviewGeneration == old(overviewGeneration) && discoveredEUICCs == old(discoveredEUICCs)
    {
      if generation != overviewGeneration {
        return;
      }
      overviewCache := overview;
      overviewLastErr := err;
      if overview.Some? {
        chipInfoCache := overview.value.chip;
      }
    }

    method InvalidateOverviewCache()
      modifies this
      ensures Abs() == Invalidated(old(Abs()))
      ensures overviewGeneration == old(overviewGeneration) + 1 && discoveredEUICCs == old(discoveredEUICCs)
      ensures overviewCache == None && overviewLastErr == None && chipInfoCache == None
    {
      overviewGeneration := overviewGeneration + 1;
      overviewCache, overviewLastErr, chipInfoCache := None, None, None;
    }

    method ClearHardwareDiscoveryCaches()
      modifies this
      ensures Abs() == Cleared(old(Abs()))
      ensures overviewGeneration == old(overviewGeneration) + 1 && discoveredEUICCs == []
      ensures overviewCache == None && overviewLastErr == None && chipInfoCache == None
    {
      overviewGeneration := overviewGeneration + 1;
      overviewCache, overviewLastErr, chipInfoCache := None, None, None;
      discoveredEUICCs := [];
    }

    method ResetForRefresh(reusable: Chip -> bool)
      modifies this
      ensures Abs() == Reset(old(Abs()), reusable)
      ensures overviewGeneration == old(overviewGeneration) + 1 && discoveredEUICCs == []
      ensures overviewCache == None && overviewLastErr == None
      ensures chipInfoCache == match old(chipInfoCache)
                               case Some(chip) => if reusable(chip) then Some(chip) else None
                               case None => None
    {
      overviewGeneration := overviewGeneration + 1;
      overviewCache, overviewLastErr := None, None;
      discoveredEUICCs := [];
      if chipInfoCache == None || !reusable(chipInfoCache.value) {
        chipInfoCache := None;
      }
    }

    /** The search: in the groups the caller's key names, or in all of them for the empty key. */
    method Find(target: string, key: string, keyOf: string -> string) returns (found: bool)
      requires overviewCache.Some?
      ensures found ==> InGroups(overviewCache.value.groups, target)
      ensures key == "" ==> (found <==> InGroups(overviewCache.value.groups, target))
    {
      hide Matches, InProfiles, InGroups;
      var groups := overviewCache.value.groups;
      NoGroups(target);
      for gi := 0 to |groups|
        invariant key == "" ==> !InGroups(groups[..gi], target)
      {
        GroupsNext(groups, gi, target);
        var group := groups[gi];
        if key == "" || keyOf(group.aid) == key {
          NoProfiles(target);
          for pi := 0 to |group.profiles|
            invariant !InProfiles(group.profiles[..pi], target)
          {
            ProfilesNext(group.profiles, pi, target);
            if Matches(target, group.profiles[pi].iccid) {
              PrefixIn(groups, gi, pi, target);
              return true;
            }
          }
          assert group.profiles[..|group.profiles|] == group.profiles;
        }
      }
      assert groups[..|groups|] == groups;
      return false;
    }

    method MarkGroup(group: Group, target: string) returns (g: Group, any: bool)
      ensures g == group.(profiles := MarkProfiles(group.profiles, target)) && any == InProfiles(group.profiles, target)
    {
      hide Matches, InProfiles, MarkProfiles;
      ghost var before := group.profiles;
      var profiles := group.profiles;
      any := false;
      NoProfiles(target);
      for pi := 0 to |profiles|
        invariant |profiles| == |before| && any == InProfiles(before[..pi], target)
        invariant profiles == MarkProfiles(before[..pi], target) + before[pi..]
      {
        ProfilesNext(before, pi, target);
        assert profiles[pi] == before[pi];
        UpdateNext(MarkProfiles(before[..pi], target), before[pi..], Marked(before[pi], target));
        assert before[pi..][1..] == before[pi + 1..];
        if Matches(target, profiles[pi].iccid) {
          profiles := profiles[pi := profiles[pi].(state := Enabled, stateText := "已启用")];
          any := true;
        } else {
          profiles := profiles[pi := profiles[pi].(state := Disabled, stateText := "已禁用")];
        }
      }
      assert before[..|before|] == before && before[|before|..] == [];
      g := group.(profiles := profiles);
    }

    /** `keyOf` stands for the trimming and upper-casing of application identifiers. */
    method PatchCachedActiveProfile(targetICCID: string, aidHex: string, keyOf: string -> string) returns (patched: bool)
      modifies this
      ensures (Abs(), patched) == Patch(old(Abs()), targetICCID)
    {
      hide Normalize, Matches, InGroups, InProfiles, MarkGroups, MarkProfiles;
      if overviewCache == None {
        return false;
      }
      var target := Normalize(targetICCID);
      if target == "" {
        return false;
      }
      var found := Find(target, keyOf(aidHex), keyOf);
      if !found {
        found := Find(target, "", keyOf);
      }
      if !found {
        return false;
      }
      var groups;
      groups, patched := MarkAll(overviewCache.value.groups, target);
      overviewCache := Some(overviewCache.value.(groups := groups));
      if patched {
        overviewLastErr := None;
      }
    }

    method MarkAll(before: seq<Group>, target: string) returns (groups: seq<Group>, patched: bool)
      ensures groups == MarkGroups(before, target) && patched == InGroups(before, target)
    {
      hide Matches, InGroups, InProfiles, MarkGroups, MarkProfiles;
      groups, patched := before, false;
      NoGroups(target);
      for gi := 0 to |groups|
        invariant |groups| == |before| && patched == InGroups(before[..gi], target)
        invariant groups == MarkGroups(before[..gi], target) + before[gi..]
      {
        GroupsNext(before, gi, target);
        assert groups[gi] == before[gi];
        UpdateNext(MarkGroups(before[..gi], target), before[gi..], before[gi].(profiles := MarkProfiles(before[gi].profiles, target)));
        assert before[gi..][1..] == before[gi + 1..];
        var group, any := MarkGroup(groups[gi], target);
        groups := groups[gi := group];
        patched := patched || any;
      }
      assert before[..|before|] == before && before[|before|..] == [];
    }
  }

  lemma UpdateNext<T>(done: seq<T>, rest: seq<T>, x: T)
    requires rest != []
    ensures (done + rest)[|done| := x] == done + [x] + rest[1..]
  {
  }

  lemma NoProfiles(target: string)
    ensures forall ps: seq<Profile> :: !InProfiles(ps[..0], target) && MarkProfiles(ps[..0], target) == []
  {
  }

  lemma NoGroups(target: string)
    ensures forall gs: seq<Group> :: !InGroups(gs[..0], target) && MarkGroups(gs[..0], target) == []
  {
  }

  lemma ProfilesNext(ps: seq<Profile>, i: nat, target: string)
    requires i < |ps|
    ensures InProfiles(ps[..i + 1], target) <==> InProfiles(ps[..i], target) || Matches(target, ps[i].iccid)
    ensures MarkProfiles(ps[..i + 1], target) == MarkProfiles(ps[..i], target) + [Marked(ps[i], target)]
  {
    hide Matches;
    var next := ps[..i + 1];
    assert next[..i] == ps[..i] && next[i] == ps[i];
    assert InProfiles(ps[..i], target) ==> InProfiles(next, target) by {
      if k :| 0 <= k < i && Matches(target, ps[..i][k].iccid) { assert next[k] == ps[..i][k]; }
    }
    if k :| 0 <= k < i + 1 && Matches(target, next[k].iccid) {
      if k < i { assert ps[..i][k] == next[k]; }
    }
  }

  lemma GroupsNext(gs: seq<Group>, i: nat, target: string)
    requires i < |gs|
    ensures InGroups(gs[..i + 1], target) <==> InGroups(gs[..i], target) || InProfiles(gs[i].profiles, target)
    ensures MarkGroups(gs[..i + 1], target) ==
            MarkGroups(gs[..i], target) + [gs[i].(profiles := MarkProfiles(gs[i].profiles, target))]
  {
    hide InProfiles, MarkProfiles;
    var next := gs[..i + 1];
    assert next[..i] == gs[..i] && next[i] == gs[i];
    assert InGroups(gs[..i], target) ==> InGroups(next, target) by {
      if k :| 0 <= k < i && InProfiles(gs[..i][k].profiles, target) { assert next[k] == gs[..i][k]; }
    }
    if k :| 0 <= k < i + 1 && InProfiles(next[k].profiles, target) {
      if k < i { assert gs[..i][k] == next[k]; }
    }
  }

  lemma PrefixIn(gs: seq<Group>, i: nat, j: nat, target: string)
    requires i < |gs| && j < |gs[i].profiles| && Matches(target, gs[i].profiles[j].iccid)
    ensures InGroups(gs, target)
  {
    hide Matches;
    assert InProfiles(gs[i].profiles, target);
  }
}
