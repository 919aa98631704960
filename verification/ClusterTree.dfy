/** Splitting a call tree by clusters of phases: everything below the root moves below a node for the
    first cluster, and is then cloned for each further cluster. */
module ClusterTree {
  import opened CallPaths
  import opened CallTree
  import opened DecimalStrings
  import opened FrontendTree
  import opened Sequences

  // ----- cluster numbers in names -----------------------------------------------------------

  const MARK := "Cluster="

  predicate IsDigit(c: char) {
    c in DIGITS
  }

  /** `s` starts with a cluster number. */
  predicate Marked(s: string) {
    |s| > 8 && s[..8] == MARK && IsDigit(s[8])
  }

  function SkipDigits(s: string): (r: string)
    ensures |r| <= |s| && (r == "" || !IsDigit(r[0]))
  {
    if s == "" || !IsDigit(s[0]) then s else SkipDigits(s[1..])
  }

  /** Puts number `k` in place of every cluster number. */
  function ModifyString(s: string, k: nat): string
    decreases |s|
  {
    if s == "" then ""
    else if Marked(s) then MARK + Natural(k) + ModifyString(SkipDigits(s[8..]), k)
    else [s[0]] + ModifyString(s[1..], k)
  }

  lemma ModifyStep(s: string, k: nat)
    requires s != ""
    ensures if Marked(s) then |s| > 8 && ModifyString(s, k) == MARK + Natural(k) + ModifyString(SkipDigits(s[8..]), k)
            else ModifyString(s, k) == [s[0]] + ModifyString(s[1..], k)
  {
  }

  lemma MarkedFirst(s: string, k: nat)
    ensures Marked(s) ==> ModifyString(s, k) != "" && ModifyString(s, k)[0] == 'C'
  {
  }

  /** What does not hold a `C` was not touched. */
  lemma {:induction false} Untouched(s: string, k: nat, n: nat)
    requires n <= |ModifyString(s, k)| && 'C' !in ModifyString(s, k)[..n]
    ensures n <= |s| && ModifyString(s, k)[..n] == s[..n]
  {
    if n > 0 {
      var r := ModifyString(s, k);
      var first := r[..n][0];
      MarkedFirst(s, k);
      if !Marked(s) {
        assert r[1..][..n - 1] == r[..n][1..];
        Untouched(s[1..], k, n - 1);
      }
    }
  }

  /** A name only starts with a cluster number afterwards if it did before. */
  lemma MarkedBefore(s: string, k: nat)
    requires s != "" && Marked([s[0]] + ModifyString(s[1..], k))
    ensures Marked(s)
  {
    var t := ModifyString(s[1..], k);
    var r := [s[0]] + t;
    assert t[..8] == r[1..9] == r[..8][1..] + [r[8]];
    assert r[..8] == MARK;
    assert 'C' !in t[..8];
    Untouched(s[1..], k, 8);
    assert s[..8] == [s[0]] + s[1..][..8][..7] && r[..8] == [s[0]] + t[..8][..7];
    assert s[8] == s[1..][..8][7] && r[8] == t[..8][7];
  }

  lemma {:induction false} SkipDigitsOf(d: string, rest: string)
    requires Digits(d) && (rest == "" || !IsDigit(rest[0]))
    ensures SkipDigits(d + rest) == rest
  {
    if d == "" {
      assert d + rest == rest;
    } else {
      SkipDigitsOf(d[1..], rest);
      assert (d + rest)[1..] == d[1..] + rest;
    }
  }

  /** Whatever follows a cluster number still does not go on with a digit. */
  lemma NoDigitFirst(s: string, k: nat)
    requires s == "" || !IsDigit(s[0])
    ensures ModifyString(s, k) == "" || !IsDigit(ModifyString(s, k)[0])
  {
    MarkedFirst(s, k);
  }

  /** A name made up of a cluster number and a rest. */
  lemma ModifyMarked(d: string, rest: string, k: nat)
    requires d != "" && Digits(d) && (rest == "" || !IsDigit(rest[0]))
    ensures ModifyString(MARK + d + rest, k) == MARK + Natural(k) + ModifyString(rest, k)
  {
    var s := MARK + d + rest;
    assert s[..8] == MARK && s[8..] == d + rest && s[8] == d[0];
    ModifyStep(s, k);
    SkipDigitsOf(d, rest);
    hide ModifyString, SkipDigits, Natural;
  }

  /** Only the last number put in place counts. */
  lemma {:induction false} ModifyTwice(s: string, j: nat, k: nat)
    ensures ModifyString(ModifyString(s, j), k) == ModifyString(s, k)
    decreases |s|
  {
    if s != "" {
      if Marked(s) {
        var rest := SkipDigits(s[8..]);
        ModifyTwice(rest, j, k);
        NoDigitFirst(rest, j);
        NaturalReads(j);
        ModifyMarked(Natural(j), ModifyString(rest, j), k);
      } else {
        ModifyTwice(s[1..], j, k);
        var r := [s[0]] + ModifyString(s[1..], j);
        if Marked(r) {
          MarkedBefore(s, j);
        }
        assert r[1..] == ModifyString(s[1..], j);
      }
    }
  }

  // ----- cluster numbers in call paths ------------------------------------------------------

  lemma {:induction false} SkipDigitsSlash(a: string, b: string)
    ensures SkipDigits(a + "/" + b) == SkipDigits(a) + "/" + b
  {
    var s := a + "/" + b;
    if a == "" {
      assert s[0] == '/';
    } else {
      assert s[0] == a[0] && s[1..] == a[1..] + "/" + b;
      SkipDigitsSlash(a[1..], b);
    }
  }

  lemma MarkedSlash(a: string, b: string)
    ensures Marked(a + "/" + b) <==> Marked(a)
  {
    var s := a + "/" + b;
    if |a| > 8 {
      assert s[..8] == a[..8];
    } else if |s| > 8 {
      assert s[|a|] == '/';
      assert |a| < 8 ==> s[..8][|a|] == '/';
      assert forall i :: 0 <= i < 8 ==> MARK[i] != '/';
    }
  }

  lemma RegroupFour(a: string, b: string, c: string, d: string)
    ensures a + (b + c + d) == a + b + c + d
  {
    Regroup(a, b + c, d);
    Regroup(a, b, c);
  }

  /** A cluster number never reaches beyond a region name. */
  lemma {:induction false} ModifySlash(a: string, b: string, k: nat)
    ensures ModifyString(a + "/" + b, k) == ModifyString(a, k) + "/" + ModifyString(b, k)
    decreases |a|
  {
    var s := a + "/" + b;
    MarkedSlash(a, b);
    ModifyStep(s, k);
    assert !Marked("") && ModifyString("", k) == "";
    hide ModifyString, Natural, SkipDigits, Marked;
    if a == "" {
      assert s[0] == '/' && s[1..] == b;
    } else {
      ModifyStep(a, k);
      if Marked(a) {
        assert s[8..] == a[8..] + "/" + b;
        SkipDigitsSlash(a[8..], b);
        ModifySlash(SkipDigits(a[8..]), b, k);
        RegroupFour(MARK + Natural(k), ModifyString(SkipDigits(a[8..]), k), "/", ModifyString(b, k));
      } else {
        assert s[0] == a[0] && s[1..] == a[1..] + "/" + b;
        ModifySlash(a[1..], b, k);
        RegroupFour([a[0]], ModifyString(a[1..], k), "/", ModifyString(b, k));
      }
    }
  }

  function ModifyPath(p: Path, k: nat): Path {
    if p == [] then [] else ModifyPath(Init(p), k) + [ModifyString(Last(p), k)]
  }

  /** Replacing the number in a call-path string is replacing it in each region name. */
  lemma {:induction false} ModifyJoin(p: Path, k: nat)
    ensures ModifyString(Join(p), k) == Join(ModifyPath(p, k))
  {
    if p != [] {
      ModifyJoin(Init(p), k);
      ModifySlash(Join(Init(p)), Last(p), k);
      JoinAppend(ModifyPath(Init(p), k), ModifyString(Last(p), k));
    }
  }

  // ----- shapes and names of trees ----------------------------------------------------------

  datatype Tree = Tree(name: string, children: seq<Tree>)

  function Renamed(t: Tree, k: nat): Tree {
    Tree(ModifyString(t.name, k), RenamedAll(t.children, k))
  }

  function RenamedAll(ts: seq<Tree>, k: nat): (r: seq<Tree>)
    ensures |r| == |ts| && forall i :: 0 <= i < |ts| ==> r[i] == Renamed(ts[i], k)
  {
    if ts == [] then [] else [Renamed(ts[0], k)] + RenamedAll(ts[1..], k)
  }

  lemma {:induction false} RenamedTwice(t: Tree, j: nat, k: nat)
    ensures Renamed(Renamed(t, j), k) == Renamed(t, k)
  {
    ModifyTwice(t.name, j, k);
    RenamedAllTwice(t.children, j, k);
  }

  lemma {:induction false} RenamedAllTwice(ts: seq<Tree>, j: nat, k: nat)
    ensures RenamedAll(RenamedAll(ts, j), k) == RenamedAll(ts, k)
  {
    var once := RenamedAll(ts, j);
    forall i | 0 <= i < |ts|
      ensures Renamed(once[i], k) == Renamed(ts[i], k)
    {
      RenamedTwice(ts[i], j, k);
    }
    assert RenamedAll(once, k) == RenamedAll(ts, k);
  }

  /** The call paths of a tree below a node, each node before what hangs below it. */
  function PathsOf(t: Tree, above: Path): seq<Path> {
    [above + [t.name]] + PathsOfAll(t.children, above + [t.name])
  }

  function PathsOfAll(ts: seq<Tree>, above: Path): seq<Path> {
    if ts == [] then [] else PathsOf(ts[0], above) + PathsOfAll(ts[1..], above)
  }

  function ModifyPaths(ps: seq<Path>, k: nat): seq<Path> {
    if ps == [] then [] else [ModifyPath(ps[0], k)] + ModifyPaths(ps[1..], k)
  }

  lemma {:induction false} ModifyPathsAppend(a: seq<Path>, b: seq<Path>, k: nat)
    ensures ModifyPaths(a + b, k) == ModifyPaths(a, k) + ModifyPaths(b, k)
  {
    hide ModifyPath;
    if a == [] {
      assert a + b == b;
    } else {
      var first := [ModifyPath(a[0], k)];
      assert (a + b)[0] == a[0] && (a + b)[1..] == a[1..] + b;
      assert ModifyPaths(a + b, k) == first + ModifyPaths(a[1..] + b, k);
      assert ModifyPaths(a, k) == first + ModifyPaths(a[1..], k);
      hide ModifyPaths;
      ModifyPathsAppend(a[1..], b, k);
      Regroup(first, ModifyPaths(a[1..], k), ModifyPaths(b, k));
    }
  }

  lemma ModifyPathSnoc(p: Path, name: string, k: nat)
    ensures ModifyPath(p + [name], k) == ModifyPath(p, k) + [ModifyString(name, k)]
  {
    assert Init(p + [name]) == p;
  }

  /** A renamed tree has the renamed call paths. */
  lemma {:induction false} PathsRenamed(t: Tree, above: Path, k: nat)
    ensures PathsOf(Renamed(t, k), ModifyPath(above, k)) == ModifyPaths(PathsOf(t, above), k)
    decreases t
  {
    hide ModifyString, ModifyPath;
    var here := above + [t.name];
    ModifyPathSnoc(above, t.name, k);
    AllPathsRenamed(t.children, here, k);
    assert PathsOf(t, above)[1..] == PathsOfAll(t.children, here);
  }

  lemma {:induction false} AllPathsRenamed(ts: seq<Tree>, above: Path, k: nat)
    ensures PathsOfAll(RenamedAll(ts, k), ModifyPath(above, k)) == ModifyPaths(PathsOfAll(ts, above), k)
    decreases ts
  {
    hide ModifyString, ModifyPath, Renamed;
    if ts != [] {
      PathsRenamed(ts[0], above, k);
      AllPathsRenamed(ts[1..], above, k);
      ModifyPathsAppend(PathsOf(ts[0], above), PathsOfAll(ts[1..], above), k);
      assert RenamedAll(ts, k)[1..] == RenamedAll(ts[1..], k);
    }
  }

  function Size(t: Tree): nat {
    1 + SizeAll(t.children)
  }

  function SizeAll(ts: seq<Tree>): nat {
    if ts == [] then 0 else Size(ts[0]) + SizeAll(ts[1..])
  }

  /** As many call paths as nodes. */
  lemma {:induction false} PathsCount(t: Tree, above: Path)
    ensures |PathsOf(t, above)| == Size(t)
    decreases t
  {
    AllPathsCount(t.children, above + [t.name]);
  }

  lemma {:induction false} AllPathsCount(ts: seq<Tree>, above: Path)
    ensures |PathsOfAll(ts, above)| == SizeAll(ts)
    decreases ts
  {
    if ts != [] {
      PathsCount(ts[0], above);
      AllPathsCount(ts[1..], above);
    }
  }

  // ----- lists without repetition -----------------------------------------------------------

  lemma Joined<T>(a: seq<T>, b: seq<T>)
    requires Distinct(a) && Distinct(b) && forall x :: x in b ==> x !in a
    ensures Distinct(a + b)
  {
    var s := a + b;
    forall j, k {:trigger s[j], s[k]} | 0 <= j < k < |s|
      ensures s[j] != s[k]
    {
      if k < |a| {
        assert s[j] == a[j] && s[k] == a[k];
      } else {
        assert s[k] == b[k - |a|] && s[k] in b;
        if j >= |a| {
          assert s[j] == b[j - |a|];
        }
      }
    }
  }

  lemma NoneTwice<T>(x: T)
    ensures Distinct<T>([]) && Distinct([x])
  {
  }

  lemma Apart<T>(a: seq<T>, b: seq<T>)
    requires Distinct(a + b)
    ensures Distinct(a) && Distinct(b) && forall x :: x in b ==> x !in a
  {
    var s := a + b;
    forall j, k | 0 <= j < k < |a|
      ensures a[j] != a[k]
    {
      assert s[j] == a[j] && s[k] == a[k];
    }
    forall j, k | 0 <= j < k < |b|
      ensures b[j] != b[k]
    {
      assert s[|a| + j] == b[j] && s[|a| + k] == b[k];
    }
    forall x | x in b
      ensures x !in a
    {
      var k :| 0 <= k < |b| && b[k] == x;
      assert s[|a| + k] == x;
      assert forall j :: 0 <= j < |a| ==> s[j] == a[j];
    }
  }

  /** The next `m` elements of what is still to do. */
  lemma NextPart<T>(done: seq<T>, todo: seq<T>, m: nat)
    requires m <= |todo|
    ensures done + todo == (done + todo[..m]) + todo[m..]
    ensures Distinct(done + todo) ==> Distinct(todo[..m]) && forall x :: x in todo[..m] ==> x !in done
    ensures forall x :: x in todo[..m] || x in todo[m..] ==> x in done + todo
  {
    assert done + todo == (done + todo[..m]) + todo[m..];
    if Distinct(done + todo) {
      Apart(done + todo[..m], todo[m..]);
      Apart(done, todo[..m]);
    }
  }

  // ----- trees of nodes ---------------------------------------------------------------------

  /** By its child links and names, `n` is the root of the tree `t`; `ns` are its nodes, each before
      what hangs below it.  If they are distinct, no two subtrees overlap. */
  ghost predicate Represents(n: Rts, t: Tree, ns: seq<Rts>)
    reads ns`children
    decreases t
  {
    ns != [] && ns[0] == n && n.regionName == t.name && RepresentsAll(n.children, t.children, ns[1..])
  }

  ghost predicate RepresentsAll(cs: seq<Rts>, ts: seq<Tree>, ns: seq<Rts>)
    reads ns`children
    decreases ts
  {
    && |cs| == |ts|
    && if ts == [] then ns == []
       else Size(ts[0]) <= |ns| && Represents(cs[0], ts[0], ns[..Size(ts[0])])
            && RepresentsAll(cs[1..], ts[1..], ns[Size(ts[0])..])
  }

  lemma {:induction false} RepresentsCount(n: Rts, t: Tree, ns: seq<Rts>)
    requires Represents(n, t, ns)
    ensures |ns| == Size(t)
    decreases t
  {
    AllRepresentCount(n.children, t.children, ns[1..]);
  }

  lemma {:induction false} AllRepresentCount(cs: seq<Rts>, ts: seq<Tree>, ns: seq<Rts>)
    requires RepresentsAll(cs, ts, ns)
    ensures |ns| == SizeAll(ts)
    decreases ts
  {
    if ts != [] {
      RepresentsCount(cs[0], ts[0], ns[..Size(ts[0])]);
      AllRepresentCount(cs[1..], ts[1..], ns[Size(ts[0])..]);
    }
  }

  lemma NoTrees(k: nat)
    ensures RepresentsAll([], [], []) && RenamedAll([], k) == []
  {
  }

  /** The node itself, and what hangs below it. */
  lemma RepresentsMeans(n: Rts, t: Tree, ns: seq<Rts>)
    requires Represents(n, t, ns)
    ensures ns != [] && ns == [n] + ns[1..] && n.regionName == t.name && |n.children| == |t.children|
    ensures Remain(n.children, t.children, 0, ns[1..])
  {
    assert n.children[0..] == n.children && t.children[0..] == t.children;
  }

  lemma RepresentsIf(n: Rts, t: Tree, ns: seq<Rts>)
    requires n.regionName == t.name && RepresentsAll(n.children, t.children, ns)
    ensures Represents(n, t, [n] + ns)
  {
    assert ([n] + ns)[1..] == ns;
  }

  lemma FirstTree(cs: seq<Rts>, ts: seq<Tree>, ns: seq<Rts>)
    requires RepresentsAll(cs, ts, ns) && ts != []
    ensures var m := Size(ts[0]);
            cs != [] && m <= |ns| && Represents(cs[0], ts[0], ns[..m]) && RepresentsAll(cs[1..], ts[1..], ns[m..])
  {
  }

  /** `ns` are the nodes of the trees that are left from the `i`-th on. */
  ghost predicate Remain(cs: seq<Rts>, ts: seq<Tree>, i: nat, ns: seq<Rts>)
    reads ns`children
  {
    i <= |cs| == |ts| && RepresentsAll(cs[i..], ts[i..], ns)
  }

  lemma NextTree(cs: seq<Rts>, ts: seq<Tree>, i: nat, ns: seq<Rts>)
    requires i < |cs| && Remain(cs, ts, i, ns)
    ensures i < |ts|
    ensures var m := Size(ts[i]); m <= |ns| && Represents(cs[i], ts[i], ns[..m]) && Remain(cs, ts, i + 1, ns[m..])
  {
    hide Represents, RepresentsAll, Size;
    FirstTree(cs[i..], ts[i..], ns);
    assert cs[i..][1..] == cs[i + 1..] && ts[i..][1..] == ts[i + 1..];
  }

  /** One more tree behind the others. */
  lemma {:induction false} OneMoreTree(cs: seq<Rts>, ts: seq<Tree>, ns: seq<Rts>, c: Rts, t: Tree, more: seq<Rts>)
    requires RepresentsAll(cs, ts, ns) && Represents(c, t, more)
    ensures RepresentsAll(cs + [c], ts + [t], ns + more)
    decreases ts
  {
    if ts == [] {
      RepresentsCount(c, t, more);
      assert ns + more == more && more[..Size(t)] == more && more[Size(t)..] == [];
    } else {
      var m := Size(ts[0]);
      OneMoreTree(cs[1..], ts[1..], ns[m..], c, t, more);
      assert (cs + [c])[1..] == cs[1..] + [c] && (ts + [t])[1..] == ts[1..] + [t];
      assert (ns + more)[..m] == ns[..m] && (ns + more)[m..] == ns[m..] + more;
    }
  }

  // ----- cloning ----------------------------------------------------------------------------

  /** The name mentions a cluster, with or without a number. */
  predicate MentionsCluster(name: string) {
    |name| >= 8 && (name[..8] == MARK || MentionsCluster(name[1..]))
  }

  /** Node by node, both hold the same ids. */
  ghost predicate SameIds(a: seq<Rts>, b: seq<Rts>)
    reads a`scorepId, a`parentScorepId, b`scorepId, b`parentScorepId
  {
    && |a| == |b|
    && forall i :: 0 <= i < |a| ==> a[i].scorepId == b[i].scorepId && a[i].parentScorepId == b[i].parentScorepId
  }

  lemma SameIdsAppend(a: seq<Rts>, b: seq<Rts>, c: seq<Rts>, d: seq<Rts>)
    requires SameIds(a, b) && SameIds(c, d)
    ensures SameIds(a + c, b + d)
  {
  }

  lemma SameIdsOne(a: Rts, b: Rts)
    requires a.scorepId == b.scorepId && a.parentScorepId == b.parentScorepId
    ensures SameIds([a], [b])
  {
  }

  lemma SameIdsSelf(a: seq<Rts>)
    ensures SameIds(a, a)
  {
  }

  lemma SameIdsTrans(a: seq<Rts>, b: seq<Rts>, c: seq<Rts>)
    requires SameIds(a, b) && SameIds(b, c)
    ensures SameIds(a, c)
  {
  }

  /** Clones a tree below `parent`, with the number of the next cluster in all names and the ids of the
      original. */
  method CloneTree(parent: Rts, node: Rts, nextCluster: nat, ghost t: Tree, ghost ns: seq<Rts>)
    returns (clone: Rts, ghost clones: seq<Rts>)
    requires Represents(node, t, ns) && parent !in ns
    modifies parent`children
    ensures parent.children == old(parent.children) + [clone]
    ensures Represents(clone, Renamed(t, nextCluster), clones)
    ensures Distinct(clones) && forall n :: n in clones ==> fresh(n)
    ensures SameIds(ns, clones) && clone.parent == parent
    decreases t
  {
    hide *;
    var name := ModifyString(node.regionName, nextCluster);
    clone := new Rts.ForCluster(parent, name, node.scorepId, node.parentScorepId, MentionsCluster(name));
    parent.children := parent.children + [clone];
    clones := [];
    RepresentsMeans(node, t, ns);
    NoTrees(nextCluster);
    NoneTwice(clone);
    SameIdsOne(node, clone);
    ghost var done, todo := [node], ns[1..];
    assert [clone] + [] == [clone];
    for i := 0 to |node.children|
      invariant parent.children == old(parent.children) + [clone] && ns == done + todo
      invariant Remain(node.children, t.children, i, todo)
      invariant RepresentsAll(clone.children, RenamedAll(t.children[..i], nextCluster), clones)
      invariant Distinct(clones) && clone !in clones && forall n :: n in clones ==> fresh(n)
      invariant SameIds(done, [clone] + clones) && clone.parent == parent
    {
      ghost var m, before := Size(t.children[i]), clone.children;
      ghost var more;
      var kid;
      NextTree(node.children, t.children, i, todo);
      NextPart(done, todo, m);
      kid, more := CloneTree(clone, node.children[i], nextCluster, t.children[i], todo[..m]);
      OneMoreTree(before, RenamedAll(t.children[..i], nextCluster), clones, kid, Renamed(t.children[i], nextCluster),
                  more);
      OneMoreRenamed(t.children, i, nextCluster);
      Joined(clones, more);
      SameIdsAppend(done, [clone] + clones, todo[..m], more);
      Regroup([clone], clones, more);
      clones, done, todo := clones + more, done + todo[..m], todo[m..];
    }
    assert t.children[..|t.children|] == t.children;
    NothingToDo(node.children, t.children, todo, []);
    assert done + [] == done;
    RenamedMeans(t, nextCluster);
    RepresentsIf(clone, Renamed(t, nextCluster), clones);
    Joined([clone], clones);
    clones := [clone] + clones;
  }

  lemma RenamedMeans(t: Tree, k: nat)
    ensures Renamed(t, k).name == ModifyString(t.name, k) && Renamed(t, k).children == RenamedAll(t.children, k)
  {
  }

  lemma OneMoreRenamed(ts: seq<Tree>, i: nat, k: nat)
    requires i < |ts|
    ensures RenamedAll(ts[..i + 1], k) == RenamedAll(ts[..i], k) + [Renamed(ts[i], k)]
  {
  }

  // ----- one subtree per cluster ------------------------------------------------------------

  /** What hangs below the root for cluster `k`: the original trees, with its number in all names. */
  function ClusterOf(forest: seq<Tree>, k: nat): Tree {
    Tree(MARK + Natural(k), if k == 1 then forest else RenamedAll(forest, k))
  }

  lemma RenamedCluster(forest: seq<Tree>, j: nat, k: nat)
    requires k > 1
    ensures Renamed(ClusterOf(forest, j), k) == ClusterOf(forest, k)
  {
    NaturalReads(j);
    ModifyMarked(Natural(j), "", k);
    assert MARK + Natural(j) + "" == MARK + Natural(j);
    RenamedAllTwice(forest, j, k);
  }

  /** What hangs below the root afterwards. */
  function Clusters(forest: seq<Tree>, n: nat): (ts: seq<Tree>)
    ensures |ts| == n && forall k :: 0 <= k < n ==> ts[k] == ClusterOf(forest, k + 1)
  {
    seq(n, k requires 0 <= k < n => ClusterOf(forest, k + 1))
  }

  /** Moves what is below `node` below a node for the first cluster. */
  method ModifyNode(node: Rts, ghost forest: seq<Tree>, ghost ns: seq<Rts>)
    requires RepresentsAll(node.children, forest, ns) && node !in ns
    modifies node`children
    ensures |node.children| == 1 && fresh(node.children[0]) && node.children[0].parentScorepId == node.scorepId
    ensures Represents(node.children[0], ClusterOf(forest, 1), [node.children[0]] + ns)
  {
    var name := MARK + Natural(1);
    var newClusterNode := new Rts.ForCluster(node, name, 0, node.scorepId, true);
    newClusterNode.callpathstring := ModifyString(node.callpathstring, 1);
    newClusterNode.children := node.children;
    node.children := [newClusterNode];
    assert ([newClusterNode] + ns)[1..] == ns;
  }

  // ----- call-path strings ------------------------------------------------------------------

  /** Node by node, the strings are those of the call paths. */
  ghost predicate HasStrings(ns: seq<Rts>, ps: seq<Path>)
    reads ns`callpathstring
  {
    |ns| == |ps| && forall i :: 0 <= i < |ns| ==> ns[i].callpathstring == Join(ps[i])
  }

  ghost predicate ValidityKnown(ns: seq<Rts>)
    reads ns`children, ns`isValidRts
  {
    forall n :: n in ns ==> (n.isValidRts <==> !HasParameterChild(n))
  }

  lemma StringsAppend(a: seq<Rts>, ps: seq<Path>, b: seq<Rts>, qs: seq<Path>)
    ensures HasStrings(a, ps) && HasStrings(b, qs) ==> HasStrings(a + b, ps + qs)
    ensures HasStrings(a + b, ps + qs) && |a| == |ps| ==> HasStrings(a, ps) && HasStrings(b, qs)
  {
    if HasStrings(a + b, ps + qs) && |a| == |ps| {
      forall i | 0 <= i < |a|
        ensures a[i].callpathstring == Join(ps[i])
      {
        assert (a + b)[i] == a[i] && (ps + qs)[i] == ps[i];
      }
      forall i | 0 <= i < |b|
        ensures b[i].callpathstring == Join(qs[i])
      {
        assert (a + b)[|a| + i] == b[i] && (ps + qs)[|a| + i] == qs[i];
      }
    }
  }

  /** The node's own string, parameters and validity. */
  method SettleNode(node: Rts, callpathStrings: seq<string>)
    modifies node`callpathstring, node`parameter, node`isValidRts
    ensures node.callpathstring == Join(callpathStrings)
    ensures node.isValidRts <==> !HasParameterChild(node)
  {
    node.callpathstring := MakeCallpathString(callpathStrings);
    InheritParameters(node);
    var withParameter := ComputeHasParameterChild(node);
    node.isValidRts := |node.children| == 0 || !withParameter;
  }

  /** Gives every node below `node` the string of its call path; the name stack is left as found. */
  method SetCallPaths(node: Rts, callpathStrings: seq<string>, ghost t: Tree, ghost ns: seq<Rts>)
    returns (rest: seq<string>)
    requires Represents(node, t, ns) && Distinct(ns)
    modifies ns`callpathstring, ns`parameter, ns`isValidRts
    ensures rest == callpathStrings
    ensures HasStrings(ns, PathsOf(t, callpathStrings)) && ValidityKnown(ns)
    decreases t
  {
    hide *;
    RepresentsMeans(node, t, ns);
    rest := callpathStrings + [node.regionName];
    assert node in ns;
    SettleNode(node, rest);
    ghost var here, paths := rest, [rest];
    ghost var done, todo := [node], ns[1..];
    Started(node, t, callpathStrings, ns);
    if |node.children| == 0 {
      rest := rest[..|rest| - 1];
    }
    var i := 0;
    while i < |node.children|
      invariant i <= |node.children|
      invariant rest == if i == |node.children| then callpathStrings else here
      invariant Progress(node, t, callpathStrings, ns, i, done, todo, paths)
    {
      ghost var m := Size(t.children[i]);
      ProgressMeans(node, t, callpathStrings, ns, i, done, todo, paths);
      ghost var part := todo[..m];
      rest := SetCallPaths(node.children[i], rest, t.children[i], part);
      ProgressNext(node, t, callpathStrings, ns, i, done, todo, paths, m);
      done, todo := done + part, todo[m..];
      paths := paths + PathsOf(t.children[i], here);
      i := i + 1;
      if i == |node.children| {
        if |rest| != 0 {
          rest := rest[..|rest| - 1];
        }
        break;
      }
    }
    Finished(node, t, callpathStrings, ns, done, todo, paths);
  }

  /** The nodes `done` have their strings, and `todo` are those below the children from the `i`-th on. */
  ghost predicate Progress(node: Rts, t: Tree, above: Path, ns: seq<Rts>, i: nat, done: seq<Rts>, todo: seq<Rts>,
                           paths: seq<Path>)
    reads node`children, todo`children, done`callpathstring, done`children, done`isValidRts
  {
    && ns == done + todo && Remain(node.children, t.children, i, todo)
    && PathsOf(t, above) == paths + PathsFrom(t.children, i, above + [t.name])
    && HasStrings(done, paths) && ValidityKnown(done)
  }

  lemma Started(node: Rts, t: Tree, above: Path, ns: seq<Rts>)
    requires Represents(node, t, ns) && node.callpathstring == Join(above + [t.name])
    requires node.isValidRts <==> !HasParameterChild(node)
    ensures ns != [] && Progress(node, t, above, ns, 0, [node], ns[1..], [above + [t.name]])
  {
    hide Represents, Remain, PathsOf, PathsFrom, HasStrings, ValidityKnown;
    RepresentsMeans(node, t, ns);
    PathsOfNode(t, above);
    OneSettled(node, above + [t.name]);
  }

  lemma ProgressMeans(node: Rts, t: Tree, above: Path, ns: seq<Rts>, i: nat, done: seq<Rts>, todo: seq<Rts>,
                      paths: seq<Path>)
    requires Progress(node, t, above, ns, i, done, todo, paths) && Distinct(ns) && i < |node.children|
    ensures i < |t.children|
    ensures var m := Size(t.children[i]);
            && m <= |todo| && Represents(node.children[i], t.children[i], todo[..m]) && Distinct(todo[..m])
            && (forall j :: 0 <= j < m ==> todo[..m][j] in ns && todo[..m][j] !in done)
  {
    hide Represents, Remain, PathsOf, PathsFrom, HasStrings, ValidityKnown, Distinct, Size;
    NextTree(node.children, t.children, i, todo);
    var m := Size(t.children[i]);
    NextPart(done, todo, m);
    forall j | 0 <= j < m
      ensures todo[..m][j] in ns && todo[..m][j] !in done
    {
      assert todo[..m][j] in todo[..m];
    }
  }

  /** After the subtree of the `i`-th child, nothing else having changed. */
  lemma ProgressNext(node: Rts, t: Tree, above: Path, ns: seq<Rts>, i: nat, done: seq<Rts>, todo: seq<Rts>,
                     paths: seq<Path>, m: nat)
    requires Progress(node, t, above, ns, i, done, todo, paths) && i < |node.children| && i < |t.children|
    requires m == Size(t.children[i]) <= |todo|
    requires HasStrings(todo[..m], PathsOf(t.children[i], above + [t.name])) && ValidityKnown(todo[..m])
    ensures Progress(node, t, above, ns, i + 1, done + todo[..m], todo[m..],
                     paths + PathsOf(t.children[i], above + [t.name]))
  {
    hide Represents, Remain, PathsOf, PathsFrom, HasStrings, ValidityKnown, Distinct, Size;
    NextTree(node.children, t.children, i, todo);
    StringsAppend(done, paths, todo[..m], PathsOf(t.children[i], above + [t.name]));
    ValidityAppend(done, todo[..m]);
    PathsOfNext(t.children, i, above + [t.name]);
    assert done + todo == (done + todo[..m]) + todo[m..];
  }

  lemma Finished(node: Rts, t: Tree, above: Path, ns: seq<Rts>, done: seq<Rts>, todo: seq<Rts>, paths: seq<Path>)
    requires Progress(node, t, above, ns, |node.children|, done, todo, paths)
    ensures HasStrings(ns, PathsOf(t, above)) && ValidityKnown(ns)
  {
    hide Remain, PathsOf, PathsFrom, HasStrings, ValidityKnown;
    NothingToDo(node.children, t.children, todo, above + [t.name]);
    assert ns == done && PathsOf(t, above) == paths;
  }

  function PathsFrom(ts: seq<Tree>, i: nat, above: Path): seq<Path> {
    if i <= |ts| then PathsOfAll(ts[i..], above) else []
  }

  lemma PathsOfNode(t: Tree, above: Path)
    ensures PathsOf(t, above) == [above + [t.name]] + PathsFrom(t.children, 0, above + [t.name])
  {
    assert t.children[0..] == t.children;
  }

  lemma PathsOfNext(ts: seq<Tree>, i: nat, above: Path)
    requires i < |ts|
    ensures PathsFrom(ts, i, above) == PathsOf(ts[i], above) + PathsFrom(ts, i + 1, above)
  {
    assert ts[i..][1..] == ts[i + 1..];
  }

  lemma OneSettled(n: Rts, p: Path)
    ensures n.callpathstring == Join(p) ==> HasStrings([n], [p])
    ensures (n.isValidRts <==> !HasParameterChild(n)) ==> ValidityKnown([n])
  {
  }

  lemma ValidityAppend(a: seq<Rts>, b: seq<Rts>)
    requires ValidityKnown(a) && ValidityKnown(b)
    ensures ValidityKnown(a + b)
  {
  }

  lemma NothingToDo(cs: seq<Rts>, ts: seq<Tree>, ns: seq<Rts>, above: Path)
    requires Remain(cs, ts, |cs|, ns)
    ensures ns == [] && PathsFrom(ts, |cs|, above) == []
  {
  }

  // ----- all clusters -----------------------------------------------------------------------

  lemma {:induction false} PartsHaveStrings(parts: seq<seq<Rts>>, ts: seq<Tree>, above: Path)
    requires |parts| == |ts| && forall k :: 0 <= k < |ts| ==> |parts[k]| == Size(ts[k])
    requires HasStrings(Flat(parts), PathsOfAll(ts, above))
    ensures forall k :: 0 <= k < |ts| ==> HasStrings(parts[k], PathsOf(ts[k], above))
  {
    if ts != [] {
      FlatAppend([parts[0]], parts[1..]);
      FlatOne(parts[0]);
      assert parts == [parts[0]] + parts[1..];
      PathsCount(ts[0], above);
      StringsAppend(parts[0], PathsOf(ts[0], above), Flat(parts[1..]), PathsOfAll(ts[1..], above));
      PartsHaveStrings(parts[1..], ts[1..], above);
    }
  }

  /** The strings of `b` are those of `a`, with number `k` in place. */
  ghost predicate RenamedStrings(a: seq<Rts>, b: seq<Rts>, k: nat)
    reads a`callpathstring, b`callpathstring
  {
    |a| == |b| && forall i :: 0 <= i < |a| ==> b[i].callpathstring == ModifyString(a[i].callpathstring, k)
  }

  /** The call paths of cluster `k` are those of the first cluster with its number in place. */
  lemma ClusterPaths(rootName: string, forest: seq<Tree>, k: nat)
    requires k > 1 && ModifyString(rootName, k) == rootName
    ensures PathsOf(ClusterOf(forest, k), [rootName]) == ModifyPaths(PathsOf(ClusterOf(forest, 1), [rootName]), k)
  {
    RenamedCluster(forest, 1, k);
    ModifyPathSnoc([], rootName, k);
    assert [] + [rootName] == [rootName];
    PathsRenamed(ClusterOf(forest, 1), [rootName], k);
  }

  lemma {:induction false} ModifyPathsCount(ps: seq<Path>, k: nat)
    ensures |ModifyPaths(ps, k)| == |ps|
  {
    if ps != [] {
      ModifyPathsCount(ps[1..], k);
    }
  }

  lemma {:induction false} ModifyPathsAt(ps: seq<Path>, k: nat, i: nat)
    requires i < |ps|
    ensures |ModifyPaths(ps, k)| == |ps| && ModifyPaths(ps, k)[i] == ModifyPath(ps[i], k)
    ensures Join(ModifyPaths(ps, k)[i]) == ModifyString(Join(ps[i]), k)
  {
    ModifyJoin(ps[i], k);
    hide ModifyPath, ModifyString;
    if |ps| > 1 {
      ModifyPathsAt(ps[1..], k, if i > 0 then i - 1 else 0);
    }
  }

  /** What the number does to the string of a cluster's topmost node. */
  lemma TopString(rootName: string, k: nat)
    ensures Join([rootName, MARK + Natural(k)]) == "/" + rootName + "/" + (MARK + Natural(k))
    ensures ModifyString(Join([rootName, MARK + Natural(1)]), k)
         == "/" + ModifyString(rootName, k) + "/" + (MARK + Natural(k))
  {
    JoinTwo(rootName, MARK + Natural(k));
    JoinTwo(rootName, MARK + Natural(1));
    ModifySlash("", rootName, k);
    ModifySlash("/" + rootName, MARK + Natural(1), k);
    NaturalReads(1);
    ModifyMarked(Natural(1), "", k);
    assert MARK + Natural(1) + "" == MARK + Natural(1);
    assert "" + "/" + rootName == "/" + rootName;
  }

  lemma JoinTwo(a: string, b: string)
    ensures Join([a, b]) == "/" + a + "/" + b
  {
    JoinAppend([], a);
    JoinAppend([a], b);
    assert [] + [a] == [a] && [a] + [b] == [a, b];
  }

  lemma ClusterStringsIf(a: seq<Rts>, b: seq<Rts>, rootName: string, forest: seq<Tree>, k: nat)
    requires k > 1 && ModifyString(rootName, k) == rootName
    requires HasStrings(a, PathsOf(ClusterOf(forest, 1), [rootName]))
    requires HasStrings(b, PathsOf(ClusterOf(forest, k), [rootName]))
    ensures RenamedStrings(a, b, k)
  {
    hide Join, ModifyString, PathsOf, ClusterOf, ModifyPath, ModifyPaths;
    var ps := PathsOf(ClusterOf(forest, 1), [rootName]);
    ClusterPaths(rootName, forest, k);
    ModifyPathsCount(ps, k);
    forall i | 0 <= i < |a|
      ensures b[i].callpathstring == ModifyString(a[i].callpathstring, k)
    {
      ModifyPathsAt(ps, k, i);
    }
  }

  lemma TopOf(ns: seq<Rts>, rootName: string, forest: seq<Tree>, k: nat)
    requires HasStrings(ns, PathsOf(ClusterOf(forest, k), [rootName]))
    ensures ns != [] && ns[0].callpathstring == Join([rootName, MARK + Natural(k)])
  {
    hide Join, Natural, PathsOfAll;
    assert [rootName] + [MARK + Natural(k)] == [rootName, MARK + Natural(k)];
  }

  lemma ClusterStringsOnlyIf(a: seq<Rts>, b: seq<Rts>, rootName: string, forest: seq<Tree>, k: nat)
    requires RenamedStrings(a, b, k)
    requires HasStrings(a, PathsOf(ClusterOf(forest, 1), [rootName]))
    requires HasStrings(b, PathsOf(ClusterOf(forest, k), [rootName]))
    ensures ModifyString(rootName, k) == rootName
  {
    hide Join, ModifyString, Natural, PathsOf, ClusterOf, HasStrings;
    TopOf(a, rootName, forest, 1);
    TopOf(b, rootName, forest, k);
    TopString(rootName, k);
    assert b[0].callpathstring == ModifyString(a[0].callpathstring, k);
    SameMiddle(ModifyString(rootName, k), rootName, MARK + Natural(k));
  }

  /** The strings of cluster `k` are those of the first cluster with its number in place, if and only
      if the number of the root's name, should it have one, is the same already. */
  lemma ClusterStrings(a: seq<Rts>, b: seq<Rts>, rootName: string, forest: seq<Tree>, k: nat)
    requires k > 1
    requires HasStrings(a, PathsOf(ClusterOf(forest, 1), [rootName]))
    requires HasStrings(b, PathsOf(ClusterOf(forest, k), [rootName]))
    ensures RenamedStrings(a, b, k) <==> ModifyString(rootName, k) == rootName
  {
    hide *;
    if ModifyString(rootName, k) == rootName {
      ClusterStringsIf(a, b, rootName, forest, k);
    }
    if RenamedStrings(a, b, k) {
      ClusterStringsOnlyIf(a, b, rootName, forest, k);
    }
  }

  lemma SameMiddle(a: string, b: string, end: string)
    requires "/" + a + "/" + end == "/" + b + "/" + end
    ensures a == b
  {
    var s, t := "/" + a + "/" + end, "/" + b + "/" + end;
    assert |a| == |b|;
    assert a == s[1..1 + |a|] && b == t[1..1 + |b|];
  }

  /** No cluster number anywhere in the name. */
  ghost predicate Unnumbered(s: string) {
    s == "" || (!Marked(s) && Unnumbered(s[1..]))
  }

  /** That is what it takes for every number to leave a root name as it is. */
  lemma {:induction false} UnnumberedIff(s: string)
    ensures Unnumbered(s) <==> forall k: nat :: ModifyString(s, k) == s
  {
    if Unnumbered(s) {
      forall k: nat
        ensures ModifyString(s, k) == s
      {
        NothingToModify(s, k);
      }
    } else {
      NumbersShow(s);
    }
  }

  lemma {:induction false} NothingToModify(s: string, k: nat)
    requires Unnumbered(s)
    ensures ModifyString(s, k) == s
  {
    if s != "" {
      NothingToModify(s[1..], k);
    }
  }

  lemma {:induction false} NumbersShow(s: string)
    requires !Unnumbered(s)
    ensures ModifyString(s, 0) != ModifyString(s, 1)
  {
    ModifyStep(s, 0);
    ModifyStep(s, 1);
    if Marked(s) {
      assert ModifyString(s, 0)[8] == Natural(0)[0] && ModifyString(s, 1)[8] == Natural(1)[0];
      assert Natural(0)[0] == '0' && Natural(1)[0] == '1';
    } else {
      NumbersShow(s[1..]);
      assert ModifyString(s, 0)[1..] == ModifyString(s[1..], 0);
      assert ModifyString(s, 1)[1..] == ModifyString(s[1..], 1);
    }
  }

  lemma FirstCluster(n: Rts, forest: seq<Tree>, ns: seq<Rts>)
    requires Represents(n, ClusterOf(forest, 1), ns)
    ensures RepresentsAll([n], Clusters(forest, 1), Flat([ns])) && Flat([ns]) == ns
    ensures Distinct([n])
  {
    hide Represents, ClusterOf;
    OneMoreTree([], [], [], n, ClusterOf(forest, 1), ns);
    FlatOne(ns);
    assert Flat<Rts>([]) == [] && [] + ns == ns && [] + [n] == [n];
    assert [] + [ClusterOf(forest, 1)] == Clusters(forest, 1);
  }

  /** Clones the cluster at `ch`, the last one so far, for the next number. */
  method AddCluster(node: Rts, ch: nat, nextCluster: nat, ghost forest: seq<Tree>, ghost parts: seq<seq<Rts>>,
                    ghost flat: seq<Rts>)
    returns (ghost clones: seq<Rts>)
    requires |node.children| == |parts| == ch + 1 == nextCluster - 1 && flat == Flat(parts)
    requires RepresentsAll(node.children, Clusters(forest, |parts|), flat) && Distinct([node] + flat)
    requires forall k :: 0 <= k < |parts| ==> Represents(node.children[k], ClusterOf(forest, k + 1), parts[k])
    modifies node`children
    ensures |node.children| == |parts| + 1 && flat + clones == Flat(parts + [clones])
    ensures RepresentsAll(node.children, Clusters(forest, |parts| + 1), flat + clones)
    ensures Distinct([node] + (flat + clones)) && SameIds(parts[ch], clones) && forall n :: n in clones ==> fresh(n)
    ensures forall k :: 0 <= k < |parts| ==> Represents(node.children[k], ClusterOf(forest, k + 1), parts[k])
    ensures Represents(node.children[|parts|], ClusterOf(forest, |parts| + 1), clones)
  {
    hide *;
    ghost var before := node.children;
    var clone;
    forall k | 0 <= k < |parts|
      ensures forall x :: x in parts[k] ==> x in flat
    {
      InFlat(parts, k);
    }
    Apart([node], flat);
    assert forall n :: n in flat ==> n != node;
    clone, clones := CloneTree(node, node.children[ch], nextCluster, ClusterOf(forest, ch + 1), parts[ch]);
    RenamedCluster(forest, ch + 1, nextCluster);
    OneMoreTree(before, Clusters(forest, |parts|), flat, clone, ClusterOf(forest, nextCluster), clones);
    FlatAppend(parts, [clones]);
    FlatOne(clones);
    Joined([node] + flat, clones);
    Regroup([node], flat, clones);
    assert Clusters(forest, |parts| + 1) == Clusters(forest, |parts|) + [ClusterOf(forest, nextCluster)];
  }

  /** Splits what is below `node` into clusters, node by node: the first cluster is what was there. */
  method MakeClusters(node: Rts, numClusters: nat, ghost forest: seq<Tree>, ghost ns: seq<Rts>)
    returns (ghost parts: seq<seq<Rts>>, ghost flat: seq<Rts>)
    requires RepresentsAll(node.children, forest, ns) && Distinct([node] + ns)
    modifies node`children
    ensures flat == Flat(parts) && |node.children| == |parts| == if numClusters > 1 then numClusters else 1
    ensures RepresentsAll(node.children, Clusters(forest, |parts|), flat)
    ensures forall k :: 0 <= k < |parts| ==> Represents(node.children[k], ClusterOf(forest, k + 1), parts[k])
    ensures Distinct([node] + flat) && parts[0] != [] && parts[0][1..] == ns
    ensures forall n :: n in flat && n !in ns ==> fresh(n)
    ensures parts[0][0].parentScorepId == node.scorepId && forall k :: 0 <= k < |parts| ==> SameIds(parts[0], parts[k])
  {
    hide *;
    Apart([node], ns);
    ModifyNode(node, forest, ns);
    ghost var first := node.children[0];
    FirstCluster(first, forest, [first] + ns);
    Joined([first], ns);
    Joined([node], [first] + ns);
    parts, flat := [[first] + ns], [first] + ns;
    SameIdsSelf(parts[0]);
    assert node.children == [first];
    var nextCluster, ch := 1, 0;
    while ch < |node.children|
      invariant nextCluster == ch + 1 && flat == Flat(parts)
      invariant |node.children| == |parts| && if numClusters > 1 then |parts| == ch + 1 < numClusters
                                              else |parts| == 1 >= ch
      invariant RepresentsAll(node.children, Clusters(forest, |parts|), flat)
      invariant forall k :: 0 <= k < |parts| ==> Represents(node.children[k], ClusterOf(forest, k + 1), parts[k])
      invariant Distinct([node] + flat) && parts[0] != [] && parts[0][1..] == ns
      invariant forall n :: n in flat && n !in ns ==> fresh(n)
      invariant parts[0][0].parentScorepId == node.scorepId
      invariant forall k :: 0 <= k < |parts| ==> SameIds(parts[0], parts[k])
      decreases numClusters + 1 - ch
    {
      nextCluster := nextCluster + 1;
      if nextCluster <= numClusters {
        ghost var clones := AddCluster(node, ch, nextCluster, forest, parts, flat);
        SameIdsTrans(parts[0], parts[ch], clones);
        parts, flat := parts + [clones], flat + clones;
        if nextCluster == numClusters {
          break;
        }
      }
      ch := ch + 1;
    }
  }

  /** What the strings of the whole tree say about each cluster. */
  lemma AllStrings(node: Rts, parts: seq<seq<Rts>>, forest: seq<Tree>)
    requires |node.children| == |parts|
    requires forall k :: 0 <= k < |parts| ==> Represents(node.children[k], ClusterOf(forest, k + 1), parts[k])
    requires HasStrings([node] + Flat(parts), PathsOf(Tree(node.regionName, Clusters(forest, |parts|)), []))
    ensures node.callpathstring == Join([node.regionName])
    ensures forall k :: 0 <= k < |parts| ==>
              HasStrings(parts[k], PathsOf(ClusterOf(forest, k + 1), [node.regionName]))
    ensures forall k :: 0 < k < |parts| ==>
              (RenamedStrings(parts[0], parts[k], k + 1) <==> ModifyString(node.regionName, k + 1) == node.regionName)
  {
    var ts, name := Clusters(forest, |parts|), node.regionName;
    assert [] + [name] == [name];
    StringsAppend([node], [[name]], Flat(parts), PathsOfAll(ts, [name]));
    hide *;
    OnlyString(node, [name]);
    forall k | 0 <= k < |parts|
      ensures |parts[k]| == Size(ts[k])
    {
      RepresentsCount(node.children[k], ts[k], parts[k]);
    }
    PartsHaveStrings(parts, ts, [name]);
    forall k | 0 < k < |parts|
      ensures RenamedStrings(parts[0], parts[k], k + 1) <==> ModifyString(name, k + 1) == name
    {
      ClusterStrings(parts[0], parts[k], name, forest, k + 1);
    }
  }

  lemma OnlyString(n: Rts, p: Path)
    requires HasStrings([n], [p])
    ensures n.callpathstring == Join(p)
  {
    assert [n][0] == n;
  }

  /** Splits what is below `node` into clusters.  `parts` lists the nodes of each: no node is in two of
      them, the first holds the nodes that were there, all others are new.  Cluster `k` looks like the
      first with number `k` in all names, and so do the call-path strings, as long as the root's name
      has no other number. */
  method ModifyTree(node: Rts, numClusters: nat, ghost forest: seq<Tree>, ghost ns: seq<Rts>)
    returns (ghost parts: seq<seq<Rts>>)
    requires RepresentsAll(node.children, forest, ns) && Distinct([node] + ns)
    modifies node`children
    modifies node`callpathstring, node`parameter, node`isValidRts
    modifies ns`callpathstring, ns`parameter, ns`isValidRts
    ensures |node.children| == |parts| == if numClusters > 1 then numClusters else 1
    ensures forall k :: 0 <= k < |parts| ==> Represents(node.children[k], ClusterOf(forest, k + 1), parts[k])
    ensures Distinct([node] + Flat(parts)) && parts[0] != [] && parts[0][1..] == ns
    ensures forall n :: n in Flat(parts) && n !in ns ==> fresh(n)
    ensures node.callpathstring == Join([node.regionName])
    ensures forall k :: 0 <= k < |parts| ==>
              HasStrings(parts[k], PathsOf(ClusterOf(forest, k + 1), [node.regionName]))
    ensures forall k :: 0 < k < |parts| ==>
              (RenamedStrings(parts[0], parts[k], k + 1) <==> ModifyString(node.regionName, k + 1) == node.regionName)
    ensures ValidityKnown([node] + Flat(parts))
    ensures parts[0][0].parentScorepId == node.scorepId && forall k :: 0 <= k < |parts| ==> SameIds(parts[0], parts[k])
  {
    hide *;
    ghost var flat;
    parts, flat := MakeClusters(node, numClusters, forest, ns);
    ghost var ts, name := Clusters(forest, |parts|), node.regionName;
    ghost var all, whole := [node] + flat, Tree(name, ts);
    RepresentsIf(node, whole, flat);
    var callpathStrings := [];
    assert forall j :: 0 <= j < |flat| ==> flat[j] in flat;
    assert forall j :: 0 <= j < |all| ==> all[j] == node || all[j] in ns || fresh(all[j]);
    callpathStrings := SetCallPaths(node, callpathStrings, whole, all);
    AllStrings(node, parts, forest);
  }

  // ----- the frontend's tree ----------------------------------------------------------------

  /** The nodes below the first `i` children. */
  ghost predicate BelowFirst(f: FrontendCallTree, n: Rts, i: nat, below: seq<Rts>)
    reads f`nodes, n`children
  {
    && (forall x :: x in below ==> x in f.nodes && UnderFirst(n, i, x))
    && (forall x :: x in f.nodes && UnderFirst(n, i, x) ==> x in below)
  }

  ghost predicate UnderFirst(n: Rts, i: nat, x: Rts)
    reads n`children
  {
    exists k :: 0 <= k < i && k < |n.children| && n.children[k].path <= x.path
  }

  lemma NoneBelow(f: FrontendCallTree, n: Rts)
    ensures BelowFirst(f, n, 0, [])
  {
  }

  lemma BelowNext(f: FrontendCallTree, n: Rts, i: nat, below: seq<Rts>, part: seq<Rts>)
    requires f.Valid() && n in f.nodes && i < |n.children| && BelowFirst(f, n, i, below)
    requires forall x :: x in part <==> x in f.nodes && n.children[i].path <= x.path
    ensures BelowFirst(f, n, i + 1, below + part)
    ensures forall x :: x in part ==> x !in below
  {
    hide f.Valid, f.NodeOk;
    forall x | x in part
      ensures x !in below
    {
      if x in below {
        var k :| 0 <= k < i && n.children[k].path <= x.path;
        f.ChildrenApart(n, k, i, x.path);
      }
    }
    forall x | x in f.nodes && UnderFirst(n, i + 1, x)
      ensures x in below + part
    {
      var k :| 0 <= k < i + 1 && k < |n.children| && n.children[k].path <= x.path;
      assert k < i ==> x in below;
    }
  }

  lemma BelowAll(f: FrontendCallTree, n: Rts, below: seq<Rts>)
    requires f.Valid() && n in f.nodes && BelowFirst(f, n, |n.children|, below)
    ensures n !in below && forall x :: x in [n] + below <==> x in f.nodes && n.path <= x.path
  {
    hide f.Valid, f.NodeOk;
    forall x | x in below
      ensures x != n && n.path <= x.path
    {
      var k :| 0 <= k < |n.children| && n.children[k].path <= x.path;
      f.ChildrenApart(n, k, k, x.path);
    }
    forall x | x in f.nodes && n.path <= x.path && x != n
      ensures x in below
    {
      f.BelowAChild(n, x);
    }
  }

  /** Every node of the frontend's tree is the root of a tree of its own nodes, none of them twice: that
      is all that splitting it into clusters asks for. */
  lemma {:induction false} SubtreeRepresents(f: FrontendCallTree, n: Rts) returns (t: Tree, ns: seq<Rts>)
    requires f.Valid() && n in f.nodes
    ensures Represents(n, t, ns) && Distinct(ns)
    ensures forall x :: x in ns <==> x in f.nodes && n.path <= x.path
    decreases f.depth - |n.path|
  {
    hide *;
    var ts: seq<Tree>, below: seq<Rts> := [], [];
    var i := 0;
    NoTrees(0);
    NoneTwice(n);
    NoneBelow(f, n);
    while i < |n.children|
      invariant i <= |n.children|
      invariant RepresentsAll(n.children[..i], ts, below) && Distinct(below) && BelowFirst(f, n, i, below)
    {
      f.ChildrenApart(n, i, i, n.path);
      var t', part := SubtreeRepresents(f, n.children[i]);
      BelowNext(f, n, i, below, part);
      OneMoreTree(n.children[..i], ts, below, n.children[i], t', part);
      Joined(below, part);
      assert n.children[..i + 1] == n.children[..i] + [n.children[i]];
      ts, below, i := ts + [t'], below + part, i + 1;
    }
    assert n.children[..i] == n.children;
    t, ns := Tree(n.regionName, ts), [n] + below;
    RepresentsIf(n, t, below);
    BelowAll(f, n, below);
    Joined([n], below);
  }
}
