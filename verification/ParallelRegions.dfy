/** Marking the regions that may run inside a parallel region. */
module ParallelRegions {

  datatype RegionType =
    | MainRegion | SubRegion | LoopRegion | CallRegion
    | ParallelRegion | DoRegion | SectionsRegion | WorkshareRegion | TaskRegion
    | OtherRegion

  datatype RunsAs = Serial | Threaded

  predicate IsParallel(t: RegionType) {
    t.ParallelRegion? || t.DoRegion? || t.SectionsRegion? || t.WorkshareRegion? || t.TaskRegion?
  }

  class Region {
    const name: string
    const kind: RegionType
    const subregions: seq<Region>
    var runsAs: RunsAs

    constructor (name: string, kind: RegionType, subregions: seq<Region>)
      ensures this.name == name && this.kind == kind && this.subregions == subregions && runsAs == Serial
    {
      this.name, this.kind, this.subregions, runsAs := name, kind, subregions, Serial;
    }
  }

  class Application {
    const codeRegions: seq<Region>
    const mainRegion: Region?
    ghost const all: set<Region>          // every region there is
    ghost const rank: map<Region, nat>    // nesting depth below a region: regions do not contain themselves

    /** Regions, subregions and called subroutines are all known, and nesting is well founded.
        Calls may be recursive. */
    ghost predicate WellFormed() {
      && (forall r :: r in codeRegions ==> r in all)
      && (mainRegion != null ==> mainRegion in all)
      && (forall r :: r in all ==> r in rank)
      && (forall r, s :: r in all && s in r.subregions ==> s in all && rank[s] < rank[r])
    }

    ghost function Marked(): set<Region>
      reads all
    {
      set r | r in all && r.runsAs == Threaded
    }

    /** Position `k` of the region table holds a subroutine of that name, and no earlier one does. */
    ghost predicate FirstSubroutine(k: nat, name: string) {
      && k < |codeRegions| && codeRegions[k].name == name && codeRegions[k].kind == SubRegion
      && forall j :: 0 <= j < k ==> codeRegions[j].name != name || codeRegions[j].kind != SubRegion
    }

    /** If `s` is a call, the first subroutine of that name is in `t`. */
    ghost predicate CalleeIn(s: Region, t: set<Region>) {
      s.kind == CallRegion ==> forall k: nat :: FirstSubroutine(k, s.name) ==> codeRegions[k] in t
    }

    /** Everything `r` contains or calls is in `t`. */
    ghost predicate Complete(r: Region, t: set<Region>) {
      forall s :: s in r.subregions ==> s in t && CalleeIn(s, t)
    }

    ghost predicate ClosedExcept(t: set<Region>, open: set<Region>) {
      forall r :: r in t && r !in open ==> Complete(r, t)
    }

    /** The region and all regions nested in it. */
    ghost function Nested(r: Region): set<Region>
      requires WellFormed() && r in all
      decreases rank[r]
    {
      {r} + set s, d | s in r.subregions && d in Nested(s) :: d
    }

    ghost predicate SeedsIn(r: Region, t: set<Region>)
      requires WellFormed() && r in all
    {
      forall p :: p in Nested(r) && IsParallel(p.kind) ==> p in t
    }

    /** A set that contains `marked` and the parallel regions nested in main, and with a region
        everything the region contains or calls. */
    ghost predicate Admissible(marked: set<Region>, t: set<Region>)
      requires WellFormed()
    {
      marked <= t <= all && ClosedExcept(t, {}) && (mainRegion != null ==> SeedsIn(mainRegion, t))
    }

    /** The least admissible set. */
    ghost function Least(marked: set<Region>): set<Region>
      requires WellFormed()
    {
      set r | r in all && forall t: set<Region> :: t <= all && Admissible(marked, t) ==> r in t
    }

    /** Finds the first subroutine of that name in the region table, if there is one. */
    method GetSubroutine(name: string) returns (r: Region?)
      ensures r == null <==>
                forall k :: 0 <= k < |codeRegions| ==> codeRegions[k].name != name || codeRegions[k].kind != SubRegion
      ensures r != null ==>
                exists k :: 0 <= k < |codeRegions| && r == codeRegions[k] && r.name == name && r.kind == SubRegion
                  && forall j :: 0 <= j < k ==> codeRegions[j].name != name || codeRegions[j].kind != SubRegion
      ensures forall k: nat :: FirstSubroutine(k, name) ==> r == codeRegions[k]
    {
      for i := 0 to |codeRegions|
        invariant forall j :: 0 <= j < i ==> codeRegions[j].name != name || codeRegions[j].kind != SubRegion
      {
        if codeRegions[i].name == name && codeRegions[i].kind.SubRegion? {
          return codeRegions[i];
        }
      }
      return null;
    }

    lemma SeedsOfSub(r: Region, s: Region, t: set<Region>)
      requires WellFormed() && r in all && s in r.subregions && SeedsIn(r, t)
      ensures s in all && SeedsIn(s, t)
    {
      forall p | p in Nested(s)
        ensures p in Nested(r)
      {
      }
    }

    lemma SeedsFromSubs(r: Region, t: set<Region>)
      requires WellFormed() && r in all && (IsParallel(r.kind) ==> r in t)
      requires forall s :: s in r.subregions ==> SeedsIn(s, t)
      ensures SeedsIn(r, t)
    {
    }

    /** A closed set contains with a region everything nested in it. */
    lemma {:induction false} NestedInClosed(r: Region, t: set<Region>)
      requires WellFormed() && r in t && t <= all && ClosedExcept(t, {})
      ensures Nested(r) <= t
      decreases rank[r]
    {
      assert Complete(r, t);
      forall s | s in r.subregions
        ensures Nested(s) <= t
      {
        NestedInClosed(s, t);
      }
    }

    /** The state of a walk that has marked `m`: the marked set is closed but for the regions still
        being walked, and stays within the closed set `t`. */
    ghost predicate Walking(m: set<Region>, open: set<Region>, t: set<Region>) {
      ClosedExcept(m, open) && m <= t <= all && ClosedExcept(t, {})
    }

    /** The first `i` subregions of `r` are walked; if `r` is threaded, they and what they call are
        marked. */
    ghost predicate Walked(r: Region, i: nat, threaded: bool, m: set<Region>)
      requires WellFormed() && r in all && i <= |r.subregions|
    {
      forall j :: 0 <= j < i ==>
        var s := r.subregions[j];
        && SeedsIn(s, m)
        && (threaded ==> s in m && CalleeIn(s, m))
    }

    lemma WalkedMore(r: Region, i: nat, threaded: bool, m: set<Region>, m': set<Region>)
      requires WellFormed() && r in all && i < |r.subregions| && Walked(r, i, threaded, m) && m <= m'
      requires SeedsIn(r.subregions[i], m')
      requires threaded ==> r.subregions[i] in m' && CalleeIn(r.subregions[i], m')
      ensures Walked(r, i + 1, threaded, m')
    {
    }

    lemma SeedsMore(r: Region, m: set<Region>, m': set<Region>)
      requires WellFormed() && r in all && SeedsIn(r, m) && m <= m'
      ensures SeedsIn(r, m')
    {
    }

    /** Marking `r` leaves it open, if it is threaded, and nothing else. */
    lemma WalkStarts(r: Region, runsAs: RunsAs, open: set<Region>, m: set<Region>, t: set<Region>)
      requires WellFormed() && r in all && Walking(m, open, t)
      requires if runsAs == Threaded then r in t else open == {}
      ensures var m' := m + if runsAs == Threaded then {r} else {};
              var inner := if runsAs == Threaded then open + {r} else {};
              Walking(m', inner, t) && Walked(r, 0, runsAs == Threaded, m')
    {
    }

    /** Once its subregions are walked, `r` is complete. */
    lemma WalkEnds(r: Region, runsAs: RunsAs, open: set<Region>, m: set<Region>, t: set<Region>)
      requires WellFormed() && r in all && Walked(r, |r.subregions|, runsAs == Threaded, m)
      requires Walking(m, if runsAs == Threaded then open + {r} else {}, t)
      requires if runsAs == Threaded then r in m else open == {}
      requires IsParallel(r.kind) ==> runsAs == Threaded
      ensures Walking(m, open, t) && SeedsIn(r, m)
    {
      forall s | s in r.subregions
        ensures SeedsIn(s, m) && (runsAs == Threaded ==> s in m && CalleeIn(s, m))
      {
        var j :| 0 <= j < |r.subregions| && r.subregions[j] == s;
      }
      SeedsFromSubs(r, m);
    }

    /** What a walk into subregion `s` of `r` may rely on. */
    lemma SubMayWalk(r: Region, s: Region, runsAs: RunsAs, t: set<Region>)
      requires WellFormed() && r in all && s in r.subregions && SeedsIn(r, t)
      requires t <= all && ClosedExcept(t, {}) && (runsAs == Threaded ==> r in t)
      ensures s in all && 0 <= rank[s] < rank[r] && SeedsIn(s, t)
      ensures runsAs == Threaded ==> s in t
      ensures runsAs == Threaded && s.kind == CallRegion ==>
                forall k: nat :: FirstSubroutine(k, s.name) ==>
                  codeRegions[k] in t && codeRegions[k] in all && SeedsIn(codeRegions[k], t)
    {
      SeedsOfSub(r, s, t);
      if runsAs == Threaded && s.kind == CallRegion {
        assert Complete(r, t);
        forall k: nat | FirstSubroutine(k, s.name)
          ensures codeRegions[k] in t && SeedsIn(codeRegions[k], t)
        {
          NestedInClosed(codeRegions[k], t);
        }
      }
    }

    lemma ParallelSeed(r: Region, t: set<Region>)
      requires WellFormed() && r in all && SeedsIn(r, t)
      ensures IsParallel(r.kind) ==> r in t
    {
      assert r in Nested(r);
    }

    /** Sets a region to what it runs as; a threaded region stays threaded. */
    method SetRra(r: Region, rra: RunsAs)
      requires r in all
      modifies r`runsAs
      ensures Marked() == old(Marked()) + if rra == Threaded then {r} else {}
    {
      if r.runsAs != Threaded {
        r.runsAs := rra;
      }
    }

    lemma MarkedMeans(r: Region)
      requires r in all
      ensures r in Marked() <==> r.runsAs == Threaded
      ensures Marked() <= all
    {
    }

    /** Walks `r` and everything nested in it.  `open` are the regions on the way here that are not
        complete yet, and `t` is any closed set that has to contain what gets marked. */
    method SetRraRecursive(r: Region, rra: RunsAs, ghost open: set<Region>, ghost t: set<Region>)
      requires WellFormed() && r in all
      requires Walking(Marked(), open, t) && SeedsIn(r, t)
      requires if rra == Threaded then r in t else open == {}
      modifies all`runsAs
      ensures old(Marked()) <= Marked()
      ensures Walking(Marked(), open, t) && SeedsIn(r, Marked())
      ensures rra == Threaded ==> r in Marked()
      decreases all - Marked() - (if rra == Threaded || IsParallel(r.kind) then {r} else {}), rank[r]
    {
      hide *;
      ParallelSeed(r, t);
      var runsAs := if IsParallel(r.kind) then Threaded else rra;
      WalkStarts(r, runsAs, open, Marked(), t);
      SetRra(r, runsAs);
      ghost var inner := if runsAs == Threaded then open + {r} else {};
      for i := 0 to |r.subregions|
        invariant old(Marked()) + (if runsAs == Threaded then {r} else {}) <= Marked()
        invariant Walking(Marked(), inner, t)
        invariant Walked(r, i, runsAs == Threaded, Marked())
      {
        WalkSubregion(r, i, runsAs, inner, t, all - Marked());
      }
      WalkEnds(r, runsAs, open, Marked(), t);
    }

    /** One round of the loop: the subregion, and the subroutine it calls if it is not marked yet. */
    method WalkSubregion(r: Region, i: nat, runsAs: RunsAs, ghost inner: set<Region>, ghost t: set<Region>,
                         ghost unmarked: set<Region>)
      requires WellFormed() && r in all && i < |r.subregions| && unmarked == all - Marked()
      requires Walking(Marked(), inner, t) && SeedsIn(r, t)
      requires Walked(r, i, runsAs == Threaded, Marked())
      requires if runsAs == Threaded then r in t && r in Marked() else inner == {}
      modifies all`runsAs
      ensures old(Marked()) <= Marked()
      ensures Walking(Marked(), inner, t)
      ensures Walked(r, i + 1, runsAs == Threaded, Marked())
      decreases unmarked, rank[r], 0
    {
      hide *;
      var reg := r.subregions[i];
      WalkingMeans(inner, t);
      SubMayWalk(r, reg, runsAs, t);
      SetRraRecursive(reg, runsAs, inner, t);
      ghost var m1 := Marked();
      if reg.kind == CallRegion && runsAs == Threaded {
        var calledSubroutine := GetSubroutine(reg.name);
        if calledSubroutine != null {
          FirstIs(reg.name, calledSubroutine);
          MarkedMeans(calledSubroutine);
          if calledSubroutine.runsAs != Threaded {
            SetRraRecursive(calledSubroutine, Threaded, inner, t);
          }
        }
      }
      if runsAs == Threaded {
        CalleeInIf(reg, Marked());
      }
      SeedsMore(reg, m1, Marked());
      WalkedMore(r, i, runsAs == Threaded, old(Marked()), Marked());
    }

    lemma FirstIs(name: string, r: Region)
      requires exists k :: 0 <= k < |codeRegions| && r == codeRegions[k] && r.name == name && r.kind == SubRegion
                 && forall j :: 0 <= j < k ==> codeRegions[j].name != name || codeRegions[j].kind != SubRegion
      ensures exists k: nat :: FirstSubroutine(k, name) && r == codeRegions[k]
    {
      var k :| 0 <= k < |codeRegions| && r == codeRegions[k]
        && forall j :: 0 <= j < k ==> codeRegions[j].name != name || codeRegions[j].kind != SubRegion;
      assert FirstSubroutine(k, name);
    }

    lemma CalleeInIf(s: Region, t: set<Region>)
      requires s.kind == CallRegion ==> forall k: nat :: FirstSubroutine(k, s.name) ==> codeRegions[k] in t
      ensures CalleeIn(s, t)
    {
    }

    lemma WalkingMeans(inner: set<Region>, t: set<Region>)
      requires Walking(Marked(), inner, t)
      ensures t <= all && ClosedExcept(t, {}) && Marked() <= t
    {
    }

    /** The least admissible set is admissible itself. */
    lemma LeastIsAdmissible(marked: set<Region>)
      requires WellFormed() && marked <= all
      ensures Admissible(marked, Least(marked))
    {
      var least := Least(marked);
      forall r | r in least
        ensures Complete(r, least)
      {
        forall s | s in r.subregions
          ensures s in least && CalleeIn(s, least)
        {
          forall t: set<Region> | t <= all && Admissible(marked, t)
            ensures s in t && CalleeIn(s, t)
          {
            assert Complete(r, t);
          }
        }
      }
      if mainRegion != null {
        NestedKnown(mainRegion);
      }
    }

    /** Marking a second time changes nothing. */
    lemma LeastIsStable(marked: set<Region>)
      requires WellFormed() && marked <= all
      ensures Least(Least(marked)) == Least(marked)
    {
      var least := Least(marked);
      LeastIsAdmissible(marked);
      assert Admissible(least, least);
      forall t: set<Region> | t <= all && Admissible(least, t)
        ensures Admissible(marked, t)
      {
      }
    }

    lemma {:induction false} NestedKnown(r: Region)
      requires WellFormed() && r in all
      ensures Nested(r) <= all
      decreases rank[r]
    {
      forall s | s in r.subregions
        ensures Nested(s) <= all
      {
        NestedKnown(s);
      }
    }

    /** Marks, and terminates even if subroutines call each other: the threaded regions are then
        exactly the least admissible set.  All parallel regions nested in main are threaded.  Whatever a
        threaded region contains is threaded, and so is the first subroutine of the name that a call in it
        gives. */
    method MarkAllPotentialParallelRegions()
      requires WellFormed() && ClosedExcept(Marked(), {})
      modifies all`runsAs
      ensures Marked() == Least(old(Marked())) && Admissible(old(Marked()), Marked())
      ensures mainRegion != null ==>
                forall p :: p in Nested(mainRegion) ==>
                  p.kind in {ParallelRegion, DoRegion, SectionsRegion, WorkshareRegion, TaskRegion} ==>
                    p.runsAs == Threaded
      ensures forall r, s :: r in all && r.runsAs == Threaded && s in r.subregions ==> s.runsAs == Threaded
      ensures forall r, s, k: nat :: r in all && r.runsAs == Threaded && s in r.subregions ==>
                s.kind == CallRegion && FirstSubroutine(k, s.name) ==> codeRegions[k].runsAs == Threaded
    {
      ghost var was := Marked();
      ghost var least := Least(was);
      LeastIsAdmissible(was);
      if mainRegion != null {
        SetRraRecursive(mainRegion, Serial, {}, least);
      }
      assert Admissible(was, Marked());
      CompleteMeans();
    }

    lemma CompleteMeans()
      requires WellFormed() && ClosedExcept(Marked(), {})
      ensures forall r, s :: r in all && r.runsAs == Threaded && s in r.subregions ==> s.runsAs == Threaded
      ensures forall r, s, k: nat :: r in all && r.runsAs == Threaded && s in r.subregions ==>
                s.kind == CallRegion && FirstSubroutine(k, s.name) ==> codeRegions[k].runsAs == Threaded
    {
      forall r, s | r in all && r.runsAs == Threaded && s in r.subregions
        ensures s.runsAs == Threaded && CalleeIn(s, Marked())
      {
        assert Complete(r, Marked());
      }
      forall r, s, k: nat | r in all && r.runsAs == Threaded && s in r.subregions
        ensures s.kind == CallRegion && FirstSubroutine(k, s.name) ==> codeRegions[k].runsAs == Threaded
      {
        assert CalleeIn(s, Marked());
        assert s.kind == CallRegion && FirstSubroutine(k, s.name) ==> codeRegions[k] in Marked();
      }
    }
  }
}
