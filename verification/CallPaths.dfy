/** Call paths: the list of region names from the root of a call tree down to a node, and the
    string the tool stores for it.  The string form is what travels between processes and what
    every lookup compares, so whether it identifies a node rests on `JoinInjective`. */
module CallPaths {
  import opened Separators
  import opened Sequences

  /** Region names from the root to the node, both included. */
  type Path = seq<string>

  ghost predicate SlashFree(name: string) {
    '/' !in name
  }

  ghost predicate AllSlashFree(p: Path) {
    forall k :: 0 <= k < |p| ==> SlashFree(p[k])
  }

  /** The call-path string of a list of names. */
  function Join(p: Path): string {
    if p == [] then "" else Join(Init(p)) + "/" + Last(p)
  }

  lemma JoinAppend(p: Path, name: string)
    ensures Join(p + [name]) == Join(p) + "/" + name
  {
    assert Init(p + [name]) == p;
  }

  /** The loop that builds the string from the front computes the same string. */
  method MakeCallpathString(callpathStrings: seq<string>) returns (callpath: string)
    ensures callpath == Join(callpathStrings)
  {
    callpath := "";
    for i := 0 to |callpathStrings|
      invariant callpath == Join(callpathStrings[..i])
    {
      callpath := callpath + ("/" + callpathStrings[i]);
      JoinAppend(callpathStrings[..i], callpathStrings[i]);
      assert callpathStrings[..i + 1] == callpathStrings[..i] + [callpathStrings[i]];
    }
    assert callpathStrings[..|callpathStrings|] == callpathStrings;
  }

  /** The call-path string identifies the call path, as long as no region name holds a slash. */
  lemma {:induction false} JoinInjective(p: Path, q: Path)
    requires AllSlashFree(p) && AllSlashFree(q)
    ensures Join(p) == Join(q) <==> p == q
  {
    if Join(p) == Join(q) {
      if p == [] || q == [] {
        assert p == [] && q == [];
      } else {
        LastUnique(Join(Init(p)), Last(p), Join(Init(q)), Last(q), '/');
        JoinInjective(Init(p), Init(q));
        assert p == Init(p) + [Last(p)] && q == Init(q) + [Last(q)];
      }
    }
  }

  /** A name cut at its slashes. */
  function Cut(name: string): (pieces: Path)
    ensures pieces != [] && AllSlashFree(pieces)
  {
    if name == "" then [""]
    else
      var rest := Cut(name[1..]);
      if name[0] == '/' then [""] + rest else [[name[0]] + rest[0]] + rest[1..]
  }

  /** A path with every name cut at its slashes. */
  function CutAll(p: Path): (pieces: Path)
    ensures AllSlashFree(pieces)
  {
    if p == [] then [] else CutAll(Init(p)) + Cut(Last(p))
  }

  lemma {:induction false} JoinConcat(p: Path, q: Path)
    ensures Join(p + q) == Join(p) + Join(q)
  {
    if q == [] {
      assert p + q == p && Join(q) == "";
    } else {
      var front, name := Init(q), Last(q);
      hide Join;
      JoinConcat(p, front);
      JoinAppend(p + front, name);
      JoinAppend(front, name);
      assert q == front + [name] && p + q == (p + front) + [name];
      Regroup(Join(p), Join(front), "/" + name);
      Regroup(Join(front), "/", name);
      Regroup(Join(p) + Join(front), "/", name);
    }
  }

  lemma JoinFirst(name: string, q: Path)
    ensures Join([name] + q) == "/" + name + Join(q)
    ensures Join([name]) == "/" + name
  {
    JoinAppend([], name);
    assert [] + [name] == [name];
    JoinConcat([name], q);
  }

  lemma BehindSlash(a: string, b: string)
    requires "/" + a == "/" + b
    ensures a == b
  {
    assert a == ("/" + a)[1..] && b == ("/" + b)[1..];
  }

  lemma {:induction false} JoinCut(name: string)
    ensures Join(Cut(name)) == "/" + name
  {
    hide Join, AllSlashFree;
    if name == "" {
      JoinFirst("", []);
    } else {
      var rest := Cut(name[1..]);
      JoinCut(name[1..]);
      assert name == [name[0]] + name[1..];
      if name[0] == '/' {
        JoinFirst("", rest);
      } else {
        JoinFirst([name[0]] + rest[0], rest[1..]);
        JoinFirst(rest[0], rest[1..]);
        assert rest == [rest[0]] + rest[1..];
        BehindSlash(rest[0] + Join(rest[1..]), name[1..]);
      }
    }
  }

  /** Cutting names does not change the string. */
  lemma {:induction false} JoinCutAll(p: Path)
    ensures Join(CutAll(p)) == Join(p)
  {
    if p != [] {
      JoinCutAll(Init(p));
      JoinConcat(CutAll(Init(p)), Cut(Last(p)));
      JoinCut(Last(p));
    }
  }

  /** Whatever the names, two call paths have the same string if and only if they are the same once
      all names are cut at their slashes. */
  lemma SameString(p: Path, q: Path)
    ensures Join(p) == Join(q) <==> CutAll(p) == CutAll(q)
  {
    JoinCutAll(p);
    JoinCutAll(q);
    JoinInjective(CutAll(p), CutAll(q));
  }

  /** So two different nodes can carry the same string. */
  lemma JoinCollides()
    ensures Join(["main", "a/b"]) == Join(["main", "a", "b"])
    ensures ["main", "a/b"] != ["main", "a", "b"]
  {
    JoinAppend([], "main");
    assert ["main", "a/b"] == ["main"] + ["a/b"];
    assert ["main", "a"] == ["main"] + ["a"];
    assert ["main", "a", "b"] == ["main", "a"] + ["b"];
    JoinAppend(["main"], "a/b");
    JoinAppend(["main"], "a");
    JoinAppend(["main", "a"], "b");
    assert Join([]) == "";
    assert Join(["main"]) == "/main" by { assert [] + ["main"] == ["main"]; }
    assert |["main", "a/b"]| == 2;
  }

  /** The parent test of the frontend: a node belongs below the one node that carries its
      parent's path. */
  lemma ParentTest(parent: Path, path: Path)
    requires AllSlashFree(parent) && AllSlashFree(path) && path != []
    ensures Join(path) == Join(parent) + "/" + Last(path) <==> parent == Init(path)
  {
    JoinAppend(parent, Last(path));
    JoinInjective(path, parent + [Last(path)]);
    hide Join, AllSlashFree;
    assert path == Init(path) + [Last(path)];
    assert Init(parent + [Last(path)]) == parent;
  }

  ghost predicate ParentClosed(ps: set<Path>) {
    forall p :: p in ps && |p| > 1 ==> Init(p) in ps
  }

  /** If only one call path has no parent, all others are below it. */
  lemma {:induction false} BelowTop(ps: set<Path>, top: Path, p: Path)
    requires ParentClosed(ps) && p in ps && forall q :: q in ps && |q| <= 1 ==> q == top
    ensures top <= p
    decreases |p|
  {
    if |p| > 1 {
      BelowTop(ps, top, Init(p));
    }
  }

  /** Among call paths whose parents are there as well, the next step from one towards another below
      it is there. */
  lemma {:induction false} StepBelow(ps: set<Path>, p: Path, q: Path)
    requires ParentClosed(ps) && q in ps && p != [] && p <= q && p != q
    ensures |p| < |q| && p + [q[|p|]] <= q && p + [q[|p|]] in ps
    decreases |q|
  {
    assert q == q[..|q|] && p == q[..|p|];
    assert |p| < |q|;
    if |q| == |p| + 1 {
      assert q == p + [q[|p|]];
    } else {
      StepBelow(ps, p, Init(q));
    }
  }

  /** A sequence of call paths without repetition in which every parent precedes its children. */
  ghost predicate ParentsFirst(ps: seq<Path>) {
    && (forall k :: 0 <= k < |ps| ==> ps[k] != [])
    && (forall k :: 0 <= k < |ps| && |ps[k]| > 1 ==> exists j :: 0 <= j < k && ps[j] == Init(ps[k]))
    && (forall j, k :: 0 <= j < k < |ps| ==> ps[j] != ps[k])
  }
}
