/** The call tree of an analysis agent: how it is built and merged from the Score-P buffers. */
module CallTree {
  import opened CallPaths
  import opened Sequences
  import opened ScorepRecords
  import opened RegionNames
  import opened TreeReplay

  class Parameter {
    const name: string
    const value: string

    constructor (name: string, value: string)
      ensures this.name == name && this.value == value
    {
      this.name, this.value := name, value;
    }
  }

  /** A node as its own record describes it: it lists the parameter its name denotes, if any. */
  ghost predicate Unmerged(n: Rts)
    reads n`parameter
  {
    n.parameter == n.own && OwnOk(n)
  }

  ghost predicate OwnOk(n: Rts) {
    n.isParameter == IsParameterName(n.regionName) && |n.own| == if n.isParameter then 1 else 0
  }

  class Rts {
    var parent: Rts?
    var children: seq<Rts>
    var scorepId: int
    var parentScorepId: int
    const regionName: string
    const isParameter: bool
    var parameter: seq<Parameter>
    var callpathstring: string
    var isValidRts: bool
    var aaRtsId: nat
    ghost const path: Path            // names from the root down to this node
    ghost const own: seq<Parameter>   // the parameter this node's own name denotes

    /** A fresh node for a record, its parameter extracted from the region name. */
    constructor (record: Record, ghost path: Path)
      ensures regionName == record.name && this.path == path
      ensures scorepId == record.scorepId && parentScorepId == record.parentScorepId
      ensures parent == null && children == [] && aaRtsId == 0 && callpathstring == ""
      ensures Unmerged(this)
      ensures isParameter ==> own[0].name == ParameterName(record.name) && own[0].value == ParameterValue(record.name)
    {
      regionName := record.name;
      isParameter := IsParameterName(record.name);
      if IsParameterName(record.name) {
        var p := new Parameter(ParameterName(record.name), ParameterValue(record.name));
        parameter, own := [p], [p];
      } else {
        parameter, own := [], [];
      }
      this.path := path;
      scorepId, parentScorepId := record.scorepId, record.parentScorepId;
      parent, children, aaRtsId := null, [], 0;
      callpathstring, isValidRts := "", false;
    }

    /** A node made below `parent` for a cluster; only `extract` has its name looked at for a parameter. */
    constructor ForCluster(parent: Rts, name: string, scorepId: int, parentScorepId: int, extract: bool)
      ensures this.parent == parent && regionName == name && children == []
      ensures this.scorepId == scorepId && this.parentScorepId == parentScorepId
      ensures isParameter <==> extract && IsParameterName(name)
      ensures parameter == own && |own| == if isParameter then 1 else 0
      ensures isParameter ==> own[0].name == ParameterName(name) && own[0].value == ParameterValue(name)
    {
      regionName, path := name, parent.path + [name];
      isParameter := extract && IsParameterName(name);
      if extract && IsParameterName(name) {
        var p := new Parameter(ParameterName(name), ParameterValue(name));
        parameter, own := [p], [p];
      } else {
        parameter, own := [], [];
      }
      this.parent, this.scorepId, this.parentScorepId := parent, scorepId, parentScorepId;
      children, aaRtsId, callpathstring, isValidRts := [], 0, "", false;
    }

    /** A node as the frontend reads it from an agent's message. */
    constructor FromMessage(callpath: string, name: string, scorepId: int, parentScorepId: int, ghost path: Path)
      ensures callpathstring == callpath && regionName == name && this.path == path
      ensures this.scorepId == scorepId && this.parentScorepId == parentScorepId
      ensures parent == null && children == [] && parameter == own == []
    {
      regionName, callpathstring, this.path := name, callpath, path;
      this.scorepId, this.parentScorepId := scorepId, parentScorepId;
      isParameter, parameter, own := IsParameterName(name), [], [];
      parent, children, aaRtsId, isValidRts := null, [], 0, false;
    }
  }

  lemma Cons<T>(x: T, s: seq<T>)
    ensures Elems([x] + s) == {x} + Elems(s)
    ensures x in s ==> Elems(s) == {x} + Elems(s)
    ensures x !in s && Distinct(s) ==> Distinct([x] + s)
  {
    forall y | y in {x} + Elems(s)
      ensures y in [x] + s
    {
      if y in s {
        var k :| 0 <= k < |s| && s[k] == y;
        assert ([x] + s)[k + 1] == y;
      } else {
        assert ([x] + s)[0] == y;
      }
    }
  }

  /** Each element of `above` that is missing from `below` is put in front of it. */
  function Propagate<T(==)>(above: seq<T>, below: seq<T>): seq<T> {
    if above == [] then below
    else Propagate(above[1..], if above[0] in below then below else [above[0]] + below)
  }

  lemma {:induction false} PropagateUnion<T>(above: seq<T>, below: seq<T>)
    requires Distinct(below)
    ensures Distinct(Propagate(above, below))
    ensures Elems(Propagate(above, below)) == Elems(above) + Elems(below)
  {
    if above != [] {
      var next := if above[0] in below then below else [above[0]] + below;
      Cons(above[0], above[1..]);
      Cons(above[0], below);
      assert above == [above[0]] + above[1..];
      PropagateUnion(above[1..], next);
    }
  }

  /** What is inherited already is not inherited twice. */
  lemma {:induction false} PropagateIdempotent<T>(above: seq<T>, below: seq<T>)
    requires Elems(above) <= Elems(below)
    ensures Propagate(above, below) == below
  {
    if above != [] {
      assert above[0] in Elems(above);
      assert forall x :: x in above[1..] ==> x in Elems(above);
      PropagateIdempotent(above[1..], below);
    }
  }

  /** Takes over the parent's parameters, if both are parameter nodes. */
  method InheritParameters(node: Rts)
    modifies node`parameter
    ensures node.parameter == if node.parent != null && node.parent.isParameter && node.isParameter
                              then Propagate(old(node.parent.parameter), old(node.parameter)) else old(node.parameter)
  {
    if node.parent != null {
      if node.parent.isParameter && node.isParameter {
        ghost var below := node.parameter;
        var above := node.parent.parameter;
        for i := 0 to |above|
          invariant Propagate(above[i..], node.parameter) == Propagate(above, below)
        {
          assert above[i..][1..] == above[i + 1..];
          if above[i] !in node.parameter {
            node.parameter := [above[i]] + node.parameter;
          }
        }
      }
    }
  }

  ghost predicate HasParameterChild(n: Rts)
    reads n`children
  {
    exists c :: c in n.children && c.isParameter
  }

  method ComputeHasParameterChild(node: Rts) returns (r: bool)
    ensures r == HasParameterChild(node)
  {
    for i := 0 to |node.children|
      invariant forall c :: c in node.children[..i] ==> !c.isParameter
    {
      if node.children[i].isParameter {
        return true;
      }
    }
    return false;
  }

  /** The parameters of the longest chain of parameter nodes that ends at `p`. */
  ghost function ChainOwns(index: map<Path, Rts>, p: Path): set<Parameter>
    decreases |p|
  {
    if p == [] || p !in index || !index[p].isParameter then {}
    else Elems(index[p].own) + ChainOwns(index, Init(p))
  }

  /** What `SetCallPaths` computes for a node. */
  datatype NodeInfo = NodeInfo(callpath: string, valid: bool, parameters: seq<Parameter>)

  /** The list is the node's whole chain, each parameter once. */
  ghost predicate WholeChain(index: map<Path, Rts>, p: Path, parameters: seq<Parameter>) {
    Distinct(parameters) && Elems(parameters) == ChainOwns(index, p)
  }

  /** Nothing outside the subtree of `node` changed, and no list that was complete. */
  ghost predicate OnlyBelow(index: map<Path, Rts>, node: Rts, s0: map<Rts, NodeInfo>, s1: map<Rts, NodeInfo>) {
    && s0.Keys == s1.Keys
    && (forall n :: n in s0 && !(node.path <= n.path) ==> s1[n] == s0[n])
    && (forall n :: n in s0 && WholeChain(index, n.path, s0[n].parameters) ==> s1[n].parameters == s0[n].parameters)
  }

  lemma OnlyBelowTrans(index: map<Path, Rts>, node: Rts, child: Rts,
                       s0: map<Rts, NodeInfo>, s1: map<Rts, NodeInfo>, s2: map<Rts, NodeInfo>)
    requires OnlyBelow(index, node, s0, s1) && OnlyBelow(index, child, s1, s2) && node.path <= child.path
    ensures OnlyBelow(index, node, s0, s2)
  {
  }

  lemma {:induction false} ChainOwnsGrown(index0: map<Path, Rts>, index: map<Path, Rts>, p: Path)
    requires forall q :: q in index0 ==> q in index && index[q] == index0[q]
    requires ParentClosed(index0.Keys) && p in index0
    ensures ChainOwns(index0, p) == ChainOwns(index, p)
    decreases |p|
  {
    if |p| > 1 {
      ChainOwnsGrown(index0, index, Init(p));
    } else if p != [] {
      assert Init(p) == [];
    }
  }

  /** Record `i`'s id is in the map, and if it was not before, it leads to the node at the record's
      call path. */
  ghost predicate IdMapped(m0: map<int, Rts>, m: map<int, Rts>, buf: seq<Record>, i: nat, rootName: string)
    requires ParentsKnown(buf) && i < |buf|
  {
    && buf[i].scorepId in m
    && (buf[i].scorepId !in m0 ==> m[buf[i].scorepId].path == RecordPath(buf, i, rootName))
  }

  /** The ids of the records from `lo` on that are not roots were inserted into `m0`, which keeps
      what it held. */
  ghost predicate IdsMapped(m0: map<int, Rts>, m: map<int, Rts>, buf: seq<Record>, lo: nat, rootName: string)
    requires ParentsKnown(buf)
  {
    && (forall id :: id in m0 ==> id in m && m[id] == m0[id])
    && (forall i {:trigger IdMapped(m0, m, buf, i, rootName)} :: lo <= i < |buf| && !IsRoot(buf, i) ==>
          IdMapped(m0, m, buf, i, rootName))
  }

  /** Ids that are new in the map lead to nodes of the tree. */
  ghost predicate NewIdsInTree(m0: map<int, Rts>, m: map<int, Rts>, nodes: set<Rts>) {
    forall id :: id in m && id !in m0 ==> m[id] in nodes
  }

  /** Record `i`'s id is in the map, and if it was not before, it leads to the tree's node at the
      record's call path. */
  ghost predicate IdLeads(m0: map<int, Rts>, m: map<int, Rts>, buf: seq<Record>, i: nat, rootName: string,
                          index: map<Path, Rts>)
    requires ParentsKnown(buf) && i < |buf|
  {
    var id, p := buf[i].scorepId, RecordPath(buf, i, rootName);
    id in m && (id !in m0 ==> p in index && m[id] == index[p])
  }

  /** The ids of the first record and of all that are not roots were inserted into `m0`, which keeps
      what it held. */
  ghost predicate IdsLead(m0: map<int, Rts>, m: map<int, Rts>, buf: seq<Record>, rootName: string,
                          index: map<Path, Rts>)
    requires ParentsKnown(buf)
  {
    && (forall id :: id in m0 ==> id in m && m[id] == m0[id])
    && (forall i {:trigger IdLeads(m0, m, buf, i, rootName, index)} ::
          0 <= i < |buf| && (i == 0 || !IsRoot(buf, i)) ==> IdLeads(m0, m, buf, i, rootName, index))
  }

  /** Old nodes stay where they are; new ones are appended to both lists. */
  ghost predicate Grown(index0: map<Path, Rts>, created0: seq<Rts>, rts0: seq<Rts>,
                        index: map<Path, Rts>, created: seq<Rts>, rts: seq<Rts>)
  {
    && (forall p :: p in index0 ==> p in index && index[p] == index0[p])
    && created0 <= created && rts0 <= rts
    && |created| - |rts| == |created0| - |rts0|
  }

  lemma GrownSelf(index: map<Path, Rts>, created: seq<Rts>, rts: seq<Rts>)
    ensures Grown(index, created, rts, index, created, rts)
  {
  }

  lemma GrownMeans(index0: map<Path, Rts>, created0: seq<Rts>, rts0: seq<Rts>,
                   index: map<Path, Rts>, created: seq<Rts>, rts: seq<Rts>)
    requires Grown(index0, created0, rts0, index, created, rts)
    ensures forall p :: p in index0 ==> p in index && index[p] == index0[p]
    ensures |created| - |rts| == |created0| - |rts0|
  {
  }

  lemma GrownAdd(index0: map<Path, Rts>, created0: seq<Rts>, rts0: seq<Rts>,
                 index: map<Path, Rts>, created: seq<Rts>, rts: seq<Rts>, p: Path, n: Rts)
    requires p !in index0 && index == index0[p := n] && created == created0 + [n] && rts == rts0 + [n]
    ensures Grown(index0, created0, rts0, index, created, rts)
  {
  }

  lemma GrownTrans(index0: map<Path, Rts>, created0: seq<Rts>, rts0: seq<Rts>,
                   index1: map<Path, Rts>, created1: seq<Rts>, rts1: seq<Rts>,
                   index2: map<Path, Rts>, created2: seq<Rts>, rts2: seq<Rts>)
    requires Grown(index0, created0, rts0, index1, created1, rts1)
    requires Grown(index1, created1, rts1, index2, created2, rts2)
    ensures Grown(index0, created0, rts0, index2, created2, rts2)
  {
  }

  ghost predicate IsTail<T>(t: seq<T>, s: seq<T>) {
    |t| <= |s| && t == s[|s| - |t|..]
  }

  lemma IsTailAppend<T>(t: seq<T>, s: seq<T>, x: T)
    requires IsTail(t, s)
    ensures IsTail(t + [x], s + [x])
  {
  }

  class AgentCallTree {
    var root: Rts?
    var bufferIndex: nat
    var lastRtsId: nat
    var scorepidToRts: map<int, Rts>
    var rtsToSerialize: seq<Rts>
    ghost var index: map<Path, Rts>   // every node under its call path
    ghost var nodes: set<Rts>
    ghost var created: seq<Rts>       // every node in order of creation

    ghost predicate NodeOk(n: Rts)
      requires n in nodes
      reads this`root, this`nodes, nodes`parent, nodes`children, nodes`aaRtsId
    {
      && n.path != []
      && (n == root ==> n.parent == null && n.path == [n.regionName])
      && (n != root ==> n.parent != null && n.parent in nodes && n in n.parent.children
                        && n.path == n.parent.path + [n.regionName]
                        && n.parent.aaRtsId < n.aaRtsId)
      && (forall c :: c in n.children ==> c in nodes && c.parent == n)
      && (forall j, k :: 0 <= j < k < |n.children| ==> n.children[j].regionName != n.children[k].regionName)
    }

    /** The nodes form a trie: parent and child links agree, siblings have distinct names, and the
        nodes are in bijection with their call paths. */
    ghost predicate Shape()
      reads this`root, this`index, this`nodes, nodes`parent, nodes`children, nodes`aaRtsId
    {
      && (root == null ==> nodes == {})
      && (root != null ==> root in nodes)
      && (forall p :: p in index ==> index[p] in nodes && index[p].path == p)
      && (forall n :: n in nodes ==> n.path in index && index[n.path] == n)
      && (forall n {:trigger NodeOk(n)} :: n in nodes ==> NodeOk(n))
    }

    /** The creation order numbers the nodes 1, 2, ... and the serialization list is its tail. */
    ghost predicate Numbered()
      reads this`lastRtsId, this`created, this`rtsToSerialize, this`nodes, nodes`aaRtsId
    {
      && lastRtsId == |created|
      && (forall k :: 0 <= k < |created| ==> created[k] in nodes && created[k].aaRtsId == k + 1)
      && (forall n :: n in nodes ==> 1 <= n.aaRtsId <= |created| && created[n.aaRtsId - 1] == n)
      && IsTail(rtsToSerialize, created)
    }

    ghost predicate Valid()
      reads this`root, this`index, this`nodes, this`lastRtsId, this`created, this`rtsToSerialize
      reads nodes`parent, nodes`children, nodes`aaRtsId
    {
      Shape() && Numbered()
    }

    /** Only the root has parent id 0, which is how the frontend will recognise it. */
    ghost predicate RootFlagged()
      reads this`root, this`nodes, nodes`parentScorepId
    {
      forall n :: n in nodes ==> (n.parentScorepId == 0 <==> n == root)
    }

    lemma ValidMeans()
      requires Valid()
      ensures Shape() && Numbered()
      ensures forall n :: n in nodes ==> n.aaRtsId <= lastRtsId
      ensures |rtsToSerialize| == |created| ==> rtsToSerialize == created
    {
    }

    constructor ()
      ensures Valid() && RootFlagged() && ParamsOk()
      ensures root == null && nodes == {} && index == map[] && scorepidToRts == map[] && rtsToSerialize == []
    {
      root, bufferIndex, lastRtsId := null, 0, 0;
      scorepidToRts, rtsToSerialize := map[], [];
      index, nodes, created := map[], {}, [];
    }

    ghost function Labels(children: seq<Rts>): (ls: seq<Label>)
      reads children
      ensures |ls| == |children|
      ensures forall k :: 0 <= k < |ls| ==> ls[k] == Label(children[k].scorepId, children[k].regionName)
    {
      seq(|children|,
          k requires 0 <= k < |children| reads children => Label(children[k].scorepId, children[k].regionName))
    }

    /** Looks a record up among the children of `node`. */
    method FindNode(node: Rts, newnode: Record) returns (found: Rts?)
      ensures var k := FirstMatch(Labels(node.children), Label(newnode.scorepId, newnode.name));
              if k == |node.children| then found == null else found == node.children[k]
      ensures found != null ==> found in node.children
      ensures found != null ==> found.scorepId == newnode.scorepId || found.regionName == newnode.name
    {
      ghost var labels := Labels(node.children);
      ghost var l := Label(newnode.scorepId, newnode.name);
      for i := 0 to |node.children|
        invariant forall j :: 0 <= j < i ==> !Matches(labels[j], l)
      {
        if node.children[i].scorepId == newnode.scorepId || node.children[i].regionName == newnode.name {
          assert Matches(labels[i], l);
          return node.children[i];
        }
      }
      return null;
    }

    /** The ids each call path currently holds. */
    ghost function PathIds(): map<Path, Ids>
      reads this`index, this`nodes, nodes`scorepId, nodes`parentScorepId
    {
      map p | p in index ::
        if index[p] in nodes then Ids(index[p].scorepId, index[p].parentScorepId) else Ids(0, 0)
    }

    /** A node's parent is the node one step up its call path. */
    lemma ParentByPath(node: Rts, m: Rts)
      requires Shape() && node in nodes && m in nodes
      requires m.path == node.path + [m.regionName]
      ensures m != root && m.parent == node && m in node.children
    {
      assert NodeOk(m) && NodeOk(node);
      assert Init(m.path) == node.path;
      if m != root {
        assert Init(m.path) == m.parent.path;
        assert index[node.path] == node && index[m.parent.path] == m.parent;
      }
    }

    /** Looking a record up by its call path or among the children is the same thing. */
    lemma ChildByPath(node: Rts, name: string)
      requires Shape() && node in nodes
      ensures (exists c :: c in node.children && c.regionName == name) <==> node.path + [name] in index
      ensures forall c :: c in node.children && c.regionName == name ==> index[node.path + [name]] == c
    {
      var p := node.path + [name];
      assert NodeOk(node);
      forall c | c in node.children && c.regionName == name
        ensures p in index && index[p] == c
      {
        assert NodeOk(c);
        assert c != root;
      }
      if p in index {
        var m := index[p];
        assert NodeOk(m);
        assert Last(m.path) == name && m.path[|m.path| - 1] == m.regionName;
        ParentByPath(node, m);
      }
    }

    /** The heap after `n` was linked below `node` and nothing else was touched. */
    twostate predicate Linked(node: Rts, new n: Rts)
      reads this`root, this`index, this`nodes, nodes`parent, nodes`children, nodes`aaRtsId, n
    {
      && node in old(nodes) && n !in old(nodes) && nodes == old(nodes) + {n}
      && root == old(root) && root != null && n != root
      && n.path == node.path + [n.regionName]
      && n.path !in old(index) && index == old(index)[n.path := n]
      && n.parent == node && n.children == []
      && node.children == old(node.children) + [n]
      && (forall m {:trigger m in old(nodes)} :: m in old(nodes) ==>
            m.parent == old(m.parent) && m.aaRtsId == old(m.aaRtsId))
      && (forall m {:trigger m in old(nodes)} :: m in old(nodes) && m != node ==> m.children == old(m.children))
    }

    twostate lemma LinkedNodeOk(node: Rts, new n: Rts, new m: Rts)
      requires old(Shape()) && Linked(node, n) && m in nodes
      requires node.aaRtsId < n.aaRtsId
      ensures NodeOk(m)
    {
      if m != n {
        assert old(NodeOk(m));
        if m == node {
          ChildNamesDiffer(node, n);
        }
      } else {
        assert old(NodeOk(node));
      }
    }

    /** A new call path means a name none of the children has. */
    twostate lemma ChildNamesDiffer(node: Rts, new n: Rts)
      requires old(Shape()) && Linked(node, n)
      ensures forall c :: c in old(node.children) ==> c.regionName != n.regionName
    {
      assert old(NodeOk(node));
      forall c | c in old(node.children)
        ensures c.regionName != n.regionName
      {
        assert old(NodeOk(c));
        assert old(index)[c.path] == c;
      }
    }

    twostate lemma LinkedShape(node: Rts, new n: Rts)
      requires old(Shape()) && Linked(node, n)
      requires node.aaRtsId < n.aaRtsId
      ensures Shape()
    {
      forall m | m in nodes
        ensures NodeOk(m)
      {
        LinkedNodeOk(node, n, m);
      }
    }

    twostate lemma LinkedNumbered(node: Rts, new n: Rts)
      requires old(Numbered()) && Linked(node, n)
      requires lastRtsId == old(lastRtsId) + 1 == n.aaRtsId
      requires created == old(created) + [n] && rtsToSerialize == old(rtsToSerialize) + [n]
      ensures Numbered()
    {
      IsTailAppend(old(rtsToSerialize), old(created), n);
    }

    twostate lemma ChildAdded(node: Rts, new n: Rts)
      requires old(Valid()) && node in old(nodes) && n !in old(nodes) && nodes == old(nodes) + {n}
      requires root == old(root) && root != null && n != root
      requires n.path == node.path + [n.regionName] && n.path !in old(index) && index == old(index)[n.path := n]
      requires n.parent == node && n.children == [] && node.children == old(node.children) + [n]
      requires forall m {:trigger m in old(nodes)} :: m in old(nodes) ==>
                 && m.parent == old(m.parent) && m.aaRtsId == old(m.aaRtsId)
                 && m.scorepId == old(m.scorepId) && m.parentScorepId == old(m.parentScorepId)
      requires forall m {:trigger m in old(nodes)} :: m in old(nodes) && m != node ==> m.children == old(m.children)
      requires lastRtsId == old(lastRtsId) + 1 == n.aaRtsId
      requires created == old(created) + [n] && rtsToSerialize == old(rtsToSerialize) + [n]
      ensures Valid() && PathIds() == old(PathIds())[n.path := Ids(n.scorepId, n.parentScorepId)]
    {
      hide Shape, Numbered, NodeOk, PathIds;
      LinkedNumbered(node, n);
      NumberedBound();
      LinkedShape(node, n);
      OneIdChanged(n);
    }

    lemma NumberedBound()
      requires Numbered()
      ensures forall n :: n in nodes ==> n.aaRtsId <= lastRtsId
    {
    }

    /** Appends a new child and gives it the next id. */
    method AddChild(node: Rts, record: Record) returns (n: Rts)
      requires Valid() && root != null && node in nodes
      requires node.path + [record.name] !in index
      modifies this`lastRtsId, this`rtsToSerialize, this`index, this`nodes, this`created, node`children
      ensures Valid() && fresh(n) && nodes == old(nodes) + {n}
      ensures n.path == node.path + [record.name] && index == old(index)[n.path := n]
      ensures PathIds() == old(PathIds())[n.path := IdsOf(record)]
      ensures n.parentScorepId == record.parentScorepId && Unmerged(n)
      ensures node.children == old(node.children) + [n]
      ensures created == old(created) + [n] && rtsToSerialize == old(rtsToSerialize) + [n]
    {
      hide *;
      ValidMeans();
      n := new Rts(record, node.path + [record.name]);
      node.children := node.children + [n];
      n.parent := node;
      lastRtsId := lastRtsId + 1;
      n.aaRtsId := lastRtsId;
      rtsToSerialize := rtsToSerialize + [n];
      created := created + [n];
      index := index[n.path := n];
      nodes := nodes + {n};
      IdsAre(record);
      ChildAdded(node, n);
    }

    /** Without stale ids a child that matches has the record's name. */
    lemma FoundIsSameName(node: Rts, record: Record, found: Rts)
      requires Shape() && node in nodes && found in node.children
      requires found.scorepId == record.scorepId || found.regionName == record.name
      requires NoStaleId(PathIds(), record.scorepId, node.path + [record.name])
      ensures found in nodes && found != root && found.path == node.path + [record.name]
    {
      assert NodeOk(node) && NodeOk(found);
      var p := node.path + [record.name];
      assert found.path == node.path + [found.regionName];
      assert Init(found.path) == node.path == Init(p);
      assert PathIds()[found.path].scorepId == found.scorepId;
    }

    lemma MissHasNoName(node: Rts, record: Record)
      requires node in nodes
      requires FirstMatch(Labels(node.children), Label(record.scorepId, record.name)) == |node.children|
      ensures forall c :: c in node.children ==> c.regionName != record.name
    {
      var labels := Labels(node.children);
      forall c | c in node.children
        ensures c.regionName != record.name
      {
        var k :| 0 <= k < |node.children| && node.children[k] == c;
        assert !Matches(labels[k], Label(record.scorepId, record.name));
      }
    }

    /** Touching the id of one node, old or new, updates one entry. */
    twostate lemma OneIdChanged(new n: Rts)
      requires old(Shape()) && Shape() && n in nodes
      requires nodes == old(nodes) + {n} && index == old(index)[n.path := n]
      requires forall m {:trigger m in old(nodes)} :: m in old(nodes) && m != n ==>
                 m.scorepId == old(m.scorepId) && m.parentScorepId == old(m.parentScorepId)
      ensures PathIds() == old(PathIds())[n.path := Ids(n.scorepId, n.parentScorepId)]
    {
      var was, now := old(PathIds()), PathIds();
      assert now.Keys == was.Keys + {n.path};
      forall p | p in now && p != n.path
        ensures now[p] == was[p]
      {
        assert index[p] == old(index)[p] && index[p] in old(nodes);
      }
    }

    twostate lemma StillFlagged(new n: Rts)
      requires old(RootFlagged()) && root == old(root) && nodes == old(nodes) + {n}
      requires n.parentScorepId == 0 <==> n == root
      requires forall m {:trigger m in old(nodes)} :: m in old(nodes) && m != n ==>
                 m.parentScorepId == old(m.parentScorepId)
      ensures RootFlagged()
    {
    }

    /** A record whose node exists already: the node takes over the record's ids. */
    method ReuseNode(found: Rts, record: Record)
      requires Valid() && root != null && found in nodes
      modifies found`scorepId, found`parentScorepId
      ensures Valid() && PathIds() == old(PathIds())[found.path := IdsOf(record)]
      ensures found.scorepId == record.scorepId && found.parentScorepId == record.parentScorepId
    {
      found.scorepId := record.scorepId;
      found.parentScorepId := record.parentScorepId;
      assert PathIds() == old(PathIds())[found.path := IdsOf(record)] by {
        assert index == index[found.path := found] && nodes == nodes + {found};
        OneIdChanged(found);
      }
    }

    /** The next record's parent is `node`: reuse the child of that name or append a new one. */
    method PlaceRecord(node: Rts, record: Record) returns (n: Rts)
      requires Valid() && RootFlagged() && root != null && node in nodes && record.parentScorepId != 0
      requires NoStaleId(PathIds(), record.scorepId, node.path + [record.name])
      modifies this`lastRtsId, this`rtsToSerialize, this`index, this`nodes, this`created
      modifies node`children, node.children`scorepId, node.children`parentScorepId
      ensures Valid() && RootFlagged() && n in nodes && n.path == node.path + [record.name]
      ensures PathIds() == old(PathIds())[n.path := IdsOf(record)]
      ensures nodes == old(nodes) + {n} && (n in old(nodes) || (fresh(n) && Unmerged(n)))
      ensures Grown(old(index), old(created), old(rtsToSerialize), index, created, rtsToSerialize)
    {
      hide *;
      var found := FindNode(node, record);
      assert PathIds() == old(PathIds());
      ValidMeans();
      if found != null {
        assert found in nodes && found != root && found.path == node.path + [record.name] by {
          FoundIsSameName(node, record, found);
        }
        ReuseNode(found, record);
        n := found;
        StillFlagged(found);
        GrownSelf(index, created, rtsToSerialize);
      } else {
        assert node.path + [record.name] !in index by {
          ChildByPath(node, record.name);
          MissHasNoName(node, record);
        }
        n := AddChild(node, record);
        StillFlagged(n);
        GrownAdd(old(index), old(created), old(rtsToSerialize), index, created, rtsToSerialize, n.path, n);
      }
    }

    /** The next record can be merged starting at `node`, the node of record `c`. */
    ghost predicate Ready(node: Rts, buf: seq<Record>, c: nat)
      reads this`root, this`index, this`nodes, this`lastRtsId, this`created, this`rtsToSerialize, this`bufferIndex
      reads nodes`parent, nodes`children, nodes`aaRtsId, nodes`scorepId, nodes`parentScorepId
    {
      && Valid() && RootFlagged() && root != null && node in nodes
      && WellFormed(buf) && c < bufferIndex <= |buf|
      && node.path == RecordPath(buf, c, root.regionName)
      && Tracks(PathIds(), buf, c, root.regionName)
      && (bufferIndex < |buf| ==> IsRoot(buf, bufferIndex) || OnPath(buf, ParentIndex(buf, bufferIndex), c))
      && NoStaleIds(PathIds(), buf, bufferIndex, root.regionName)
    }

    /** After record `i` was merged at `n`, the next record starts there. */
    lemma ReadyNext(ids0: map<Path, Ids>, n: Rts, buf: seq<Record>, c: nat, i: nat)
      requires Valid() && RootFlagged() && root != null && n in nodes
      requires WellFormed(buf) && c < i < |buf| && bufferIndex == i + 1
      requires IsRoot(buf, i) || ParentIndex(buf, i) == c
      requires n.path == RecordPath(buf, i, root.regionName)
      requires PathIds() == ids0[n.path := IdsOf(buf[i])]
      requires Tracks(ids0, buf, c, root.regionName) && NoStaleIds(ids0, buf, i, root.regionName)
      ensures Ready(n, buf, i)
    {
      TracksNext(ids0, buf, c, i, root.regionName);
      NoStaleIdsNext(ids0, buf, i, root.regionName);
      assert bufferIndex < |buf| ==> InPreorder(buf, bufferIndex);
    }

    /** Whether the record belongs below `node` is decided by the id alone. */
    lemma ReadyHere(node: Rts, buf: seq<Record>, c: nat)
      requires Ready(node, buf, c) && bufferIndex < |buf| && !IsRoot(buf, bufferIndex)
      ensures buf[bufferIndex].parentScorepId == node.scorepId <==> ParentIndex(buf, bufferIndex) == c
    {
      assert PathIds()[node.path].scorepId == node.scorepId;
      assert OnPath(buf, c, c);
      if buf[bufferIndex].parentScorepId == node.scorepId {
        ParentUnique(buf, bufferIndex, c);
      }
    }

    /** Otherwise the search continues at the parent, which exists. */
    lemma ReadyAbove(node: Rts, buf: seq<Record>, c: nat)
      requires Ready(node, buf, c) && bufferIndex < |buf| && !IsRoot(buf, bufferIndex)
      requires ParentIndex(buf, bufferIndex) != c
      ensures !IsRoot(buf, c) && ParentIndex(buf, c) >= 0 && node.parent != null
      ensures Ready(node.parent, buf, ParentIndex(buf, c))
    {
      assert NodeOk(node);
      assert !IsRoot(buf, c);
      assert |node.path| > 1;
      assert Init(node.path) == node.parent.path;
      TracksParent(PathIds(), buf, c, root.regionName);
    }

    lemma ReadyMeans(node: Rts, buf: seq<Record>, c: nat)
      requires Ready(node, buf, c)
      ensures Valid() && RootFlagged() && root != null && root in nodes && root.path == [root.regionName]
      ensures WellFormed(buf) && ParentsKnown(buf) && c < bufferIndex <= |buf| && node in nodes
      ensures forall n :: n in node.children ==> n in nodes
      ensures bufferIndex < |buf| && !IsRoot(buf, bufferIndex) && ParentIndex(buf, bufferIndex) == c ==>
                NoStaleId(PathIds(), buf[bufferIndex].scorepId, node.path + [buf[bufferIndex].name])
      ensures bufferIndex < |buf| && ParentIndex(buf, bufferIndex) == c && !IsRoot(buf, bufferIndex) ==>
                node.path + [buf[bufferIndex].name] == RecordPath(buf, bufferIndex, root.regionName)
      ensures bufferIndex < |buf| && IsRoot(buf, bufferIndex) ==>
                root.path == RecordPath(buf, bufferIndex, root.regionName)
    {
      assert NodeOk(root) && NodeOk(node);
      if bufferIndex < |buf| && !IsRoot(buf, bufferIndex) && ParentIndex(buf, bufferIndex) == c {
        var p := RecordPath(buf, bufferIndex, root.regionName);
        assert p == node.path + [buf[bufferIndex].name];
        assert NoStaleId(PathIds(), buf[bufferIndex].scorepId, p);
      }
    }

    /** A record of a thread's phase region: the root stands for it. */
    method StartThread(buf: seq<Record>, ghost node: Rts, ghost c: nat)
      requires Ready(node, buf, c) && bufferIndex < |buf| && IsRoot(buf, bufferIndex)
      modifies this`bufferIndex, root`scorepId, root`parentScorepId
      ensures bufferIndex == old(bufferIndex) + 1 && Ready(root, buf, old(bufferIndex))
      ensures var p := RecordPath(buf, old(bufferIndex), root.regionName);
              PathIds() == old(PathIds())[p := IdsOf(buf[old(bufferIndex)])]
    {
      hide *;
      ghost var ids0, i := PathIds(), bufferIndex;
      ReadyMeans(node, buf, c);
      ReadyTracks(node, buf, c);
      ReuseNode(root, buf[bufferIndex]);
      IsRootMeans(buf, i);
      StillFlagged(root);
      bufferIndex := bufferIndex + 1;
      ReadyNext(ids0, root, buf, c, i);
    }

    /** A record whose parent is `node`: its node is found or made, and its id registered. */
    method PlaceNext(node: Rts, buf: seq<Record>, ghost c: nat) returns (n: Rts)
      requires Ready(node, buf, c) && bufferIndex < |buf|
      requires !IsRoot(buf, bufferIndex) && ParentIndex(buf, bufferIndex) == c
      modifies this`bufferIndex, this`scorepidToRts
      modifies this`lastRtsId, this`rtsToSerialize, this`index, this`nodes, this`created
      modifies node`children, node.children`scorepId, node.children`parentScorepId
      ensures bufferIndex == old(bufferIndex) + 1 && Ready(n, buf, old(bufferIndex))
      ensures nodes == old(nodes) + {n} && (n in old(nodes) || (fresh(n) && Unmerged(n)))
      ensures n.path == RecordPath(buf, old(bufferIndex), root.regionName)
      ensures var p := RecordPath(buf, old(bufferIndex), root.regionName);
              PathIds() == old(PathIds())[p := IdsOf(buf[old(bufferIndex)])]
      ensures Grown(old(index), old(created), old(rtsToSerialize), index, created, rtsToSerialize)
      ensures var id := buf[old(bufferIndex)].scorepId;
              scorepidToRts == if id in old(scorepidToRts) then old(scorepidToRts) else old(scorepidToRts)[id := n]
    {
      hide *;
      ghost var ids0, i := PathIds(), bufferIndex;
      ReadyMeans(node, buf, c);
      ReadyTracks(node, buf, c);
      IsRootMeans(buf, i);
      n := PlaceRecord(node, buf[bufferIndex]);
      if buf[bufferIndex].scorepId !in scorepidToRts {
        scorepidToRts := scorepidToRts[buf[bufferIndex].scorepId := n];
      }
      bufferIndex := bufferIndex + 1;
      ReadyNext(ids0, n, buf, c, i);
    }

    /** Merges the records from `bufferIndex` on into the tree, walking up from `node` (the node of
        record `c`) to the parent of the next record. */
    method InsertNode(node: Rts, buf: seq<Record>, ghost c: nat)
      requires Ready(node, buf, c)
      modifies this`bufferIndex, this`scorepidToRts
      modifies this`lastRtsId, this`rtsToSerialize, this`index, this`nodes, this`created
      modifies nodes`children, nodes`scorepId, nodes`parentScorepId
      ensures Valid() && RootFlagged() && bufferIndex == |buf|
      ensures old(nodes) <= nodes && fresh(nodes - old(nodes))
      ensures forall n :: n in nodes && n !in old(nodes) ==> Unmerged(n)
      ensures PathIds() == Replay(old(PathIds()), buf, old(bufferIndex), root.regionName)
      ensures Grown(old(index), old(created), old(rtsToSerialize), index, created, rtsToSerialize)
      ensures IdsMapped(old(scorepidToRts), scorepidToRts, buf, old(bufferIndex), root.regionName)
      ensures NewIdsInTree(old(scorepidToRts), scorepidToRts, nodes)
      decreases |buf| - bufferIndex, c
    {
      hide *;
      ReadyMeans(node, buf, c);
      ghost var ids0, i, m0, rn := PathIds(), bufferIndex, scorepidToRts, root.regionName;
      ghost var index0, created0, rts0 := index, created, rtsToSerialize;
      if bufferIndex >= |buf| {
        ReplayEnds(ids0, buf, rn);
        IdsMappedEnds(m0, buf, rn);
        NoNewIds(m0, nodes);
        GrownSelf(index, created, rtsToSerialize);
        return;
      }
      ReplayStep(ids0, buf, i, rn);
      if buf[bufferIndex].parentScorepId == 0 {
        assert IsRoot(buf, i) by { IsRootMeans(buf, i); }
        StartThread(buf, node, c);
        InsertNode(root, buf, bufferIndex - 1);
        IdsMappedRoot(m0, scorepidToRts, buf, i, rn);
      } else {
        assert !IsRoot(buf, i) by { IsRootMeans(buf, i); }
        ReadyHere(node, buf, c);
        if buf[bufferIndex].parentScorepId == node.scorepId {
          var n := PlaceNext(node, buf, c);
          ghost var m1, index1, created1, rts1 := scorepidToRts, index, created, rtsToSerialize;
          InsertNode(n, buf, bufferIndex - 1);
          GrownTrans(index0, created0, rts0, index1, created1, rts1, index, created, rtsToSerialize);
          IdsMappedStep(m0, m1, scorepidToRts, buf, i, n, rn);
          NewIdsStep(m0, m1, scorepidToRts, buf, i, n, nodes, rn);
        } else {
          ReadyAbove(node, buf, c);
          InsertNode(node.parent, buf, ParentIndex(buf, c));
        }
      }
    }

    lemma ReadyTracks(node: Rts, buf: seq<Record>, c: nat)
      requires Ready(node, buf, c)
      ensures WellFormed(buf) && ParentsKnown(buf) && c < bufferIndex <= |buf| && root != null
      ensures Tracks(PathIds(), buf, c, root.regionName)
      ensures NoStaleIds(PathIds(), buf, bufferIndex, root.regionName)
    {
    }

    ghost function InfoOf(n: Rts): NodeInfo
      reads n`callpathstring, n`isValidRts, n`parameter
    {
      NodeInfo(n.callpathstring, n.isValidRts, n.parameter)
    }

    ghost function Infos(): map<Rts, NodeInfo>
      reads this`nodes, nodes`callpathstring, nodes`isValidRts, nodes`parameter
    {
      map n | n in nodes :: InfoOf(n)
    }

    /** Every node lists its own parameter and only parameters of its chain, each once. */
    ghost predicate ParamOk(n: Rts)
      reads this`index, n`parameter
    {
      OwnOk(n) && Distinct(n.parameter) && Elems(n.own) <= Elems(n.parameter) <= ChainOwns(index, n.path)
    }

    ghost predicate ParamsOk()
      reads this`index, this`nodes, nodes`parameter
    {
      forall n :: n in nodes ==> ParamOk(n)
    }

    /** A node lists the whole chain. */
    ghost predicate Inherited(n: Rts)
      reads this`index, n`parameter
    {
      WholeChain(index, n.path, n.parameter)
    }

    /** The node's call-path string, its parameter list and its validity are settled. */
    ghost predicate Settled(n: Rts)
      reads this`index, n`parameter, n`children, n`callpathstring, n`isValidRts
    {
      && n.callpathstring == Join(n.path)
      && Inherited(n)
      && (n.isValidRts <==> !HasParameterChild(n))
    }

    lemma OwnIsInChain(n: Rts)
      requires Shape() && ParamsOk() && n in nodes
      ensures Elems(n.own) <= ChainOwns(index, n.path)
      ensures !n.isParameter ==> n.parameter == [] && Inherited(n)
    {
      assert ParamOk(n);
      assert n.parameter != [] ==> n.parameter[0] in Elems(n.parameter);
    }

    /** The last step of a chain. */
    lemma ChainStep(n: Rts)
      requires Shape() && ParamsOk() && n in nodes && n.isParameter
      requires n.parent != null ==> Inherited(n.parent)
      ensures n.parent == null || !n.parent.isParameter ==> Inherited(n)
      ensures n.parent != null ==> n.parent in nodes && n.parent != n
      ensures n.parent != null ==>
                ChainOwns(index, n.path) == Elems(n.parent.parameter) + Elems(n.own)
    {
      assert NodeOk(n) && ParamOk(n);
      assert index[n.path] == n;
      if n.parent != null {
        assert Init(n.path) == n.parent.path;
        OwnIsInChain(n.parent);
      } else {
        assert Init(n.path) == [];
      }
    }

    /** Takes over the parent's parameters, if both are parameter nodes. */
    method PropagateParameters(node: Rts)
      requires Shape() && ParamsOk() && node in nodes
      requires node.parent != null ==> node.parent in nodes && Inherited(node.parent)
      modifies node`parameter
      ensures ParamsOk() && Inherited(node)
      ensures node.parameter == if node.parent != null && node.parent.isParameter && node.isParameter
                                then Propagate(old(node.parent.parameter), old(node.parameter)) else old(node.parameter)
      ensures old(Inherited(node)) ==> node.parameter == old(node.parameter)
    {
      assert ParamOk(node);
      OwnIsInChain(node);
      if node.isParameter {
        ChainStep(node);
      }
      InheritParameters(node);
      if node.parent != null && node.parent.isParameter && node.isParameter {
        var below, above := old(node.parameter), old(node.parent.parameter);
        PropagateUnion(above, below);
        if Elems(above) <= Elems(below) {
          PropagateIdempotent(above, below);
        }
        assert Elems(node.own) <= Elems(below) <= Elems(above) + Elems(node.own);
      }
    }

    /** Every node is the given one or lies below one of its children. */
    lemma BelowAChild(node: Rts, n: Rts)
      requires Shape() && node in nodes && n in nodes && node.path <= n.path && n != node
      ensures exists k :: 0 <= k < |node.children| && node.children[k].path <= n.path
    {
      ShapeMeans();
      assert NodeOk(node) && index[n.path] == n && index[node.path] == node;
      StepBelow(index.Keys, node.path, n.path);
      var step := node.path + [n.path[|node.path|]];
      var child := index[step];
      assert NodeOk(child) && Last(child.path) == n.path[|node.path|];
      ParentByPath(node, child);
      var k :| 0 <= k < |node.children| && node.children[k] == child;
    }

    /** The subtrees of different children do not overlap, and a child's path extends its parent's. */
    lemma ChildrenApart(node: Rts, j: nat, k: nat, p: Path)
      requires Shape() && node in nodes && j < |node.children| && k < |node.children|
      ensures node.children[j].path == node.path + [node.children[j].regionName]
      ensures node.children[j] in nodes && node.children[j] != node && node.children[j].parent == node
      ensures node.aaRtsId < node.children[j].aaRtsId
      ensures node.children[j].path <= p && node.children[k].path <= p ==> j == k
    {
      assert NodeOk(node);
      assert NodeOk(node.children[j]) && NodeOk(node.children[k]);
      if node.children[j].path <= p && node.children[k].path <= p {
        assert p[|node.path|] == node.children[j].regionName == node.children[k].regionName;
      }
    }

    /** Settles one node: its string, its parameters and its validity. */
    method SettleNode(node: Rts, callpathStrings: seq<string>)
      requires Shape() && ParamsOk() && node in nodes && callpathStrings == node.path
      requires node.parent != null ==> node.parent in nodes && Inherited(node.parent)
      modifies node`callpathstring, node`isValidRts, node`parameter
      ensures ParamsOk() && Settled(node)
      ensures old(Inherited(node)) ==> node.parameter == old(node.parameter)
    {
      node.callpathstring := MakeCallpathString(callpathStrings);
      PropagateParameters(node);
      var withParameter := ComputeHasParameterChild(node);
      node.isValidRts := |node.children| == 0 || !withParameter;
    }

    /** The nodes below the first `i` children are settled. */
    ghost predicate SettledBelow(node: Rts, i: nat)
      reads this`index, this`nodes, node, nodes`parameter, nodes`children, nodes`callpathstring, nodes`isValidRts
    {
      forall n, k :: n in nodes && 0 <= k < i && k < |node.children| && node.children[k].path <= n.path ==> Settled(n)
    }

    ghost predicate SettledSubtree(node: Rts)
      reads this`index, this`nodes, nodes`parameter, nodes`children, nodes`callpathstring, nodes`isValidRts
    {
      forall n :: n in nodes && node.path <= n.path ==> Settled(n)
    }

    twostate lemma OneNodeSettled(new node: Rts)
      requires node in nodes && nodes == old(nodes) && index == old(index)
      requires old(Inherited(node)) ==> node.parameter == old(node.parameter)
      requires forall n :: n in old(nodes) && n != node ==> old(InfoOf(n)) == InfoOf(n)
      ensures OnlyBelow(index, node, old(Infos()), Infos())
    {
    }

    twostate lemma SettledBelowNext(new node: Rts, i: nat)
      requires Shape() && node in old(nodes) && i < |node.children| && node.children == old(node.children)
      requires nodes == old(nodes) && index == old(index)
      requires forall n {:trigger n in old(nodes)} :: n in old(nodes) ==> n.children == old(n.children)
      requires OnlyBelow(index, node.children[i], old(Infos()), Infos()) && SettledSubtree(node.children[i])
      requires old(SettledBelow(node, i))
      ensures SettledBelow(node, i + 1)
    {
      forall n, k: nat | n in nodes && k < i + 1 && node.children[k].path <= n.path
        ensures Settled(n)
      {
        SettledOneNext(node, i, n, k);
      }
    }

    twostate lemma SettledOneNext(new node: Rts, new i: int, new n: Rts, new k: int)
      requires Shape() && node in old(nodes) && 0 <= i < |node.children| && node.children == old(node.children)
      requires nodes == old(nodes) && index == old(index) && n in nodes && n.children == old(n.children)
      requires OnlyBelow(index, node.children[i], old(Infos()), Infos()) && SettledSubtree(node.children[i])
      requires old(SettledBelow(node, i))
      requires 0 <= k <= i && node.children[k].path <= n.path
      ensures Settled(n)
    {
      var child := node.children[i];
      if k < i {
        ChildrenApart(node, k, i, n.path);
        UnchangedStaysSettled(n, child);
      }
    }

    twostate lemma UnchangedStaysSettled(new n: Rts, new child: Rts)
      requires n in old(nodes) && nodes == old(nodes) && index == old(index) && n.children == old(n.children)
      requires OnlyBelow(index, child, old(Infos()), Infos())
      requires old(Settled(n)) && !(child.path <= n.path)
      ensures Settled(n)
    {
      assert Infos()[n] == old(Infos()[n]);
      assert InfoOf(n) == old(InfoOf(n));
    }

    lemma NothingBelow(node: Rts)
      ensures SettledBelow(node, 0)
    {
    }

    lemma SettledAll(node: Rts)
      requires Shape() && node in nodes && SettledBelow(node, |node.children|) && Settled(node)
      ensures SettledSubtree(node)
    {
      forall n | n in nodes && node.path <= n.path
        ensures Settled(n)
      {
        if n != node {
          BelowAChild(node, n);
        }
      }
    }

    lemma ChildSettles(node: Rts, i: nat)
      requires Shape() && Numbered() && node in nodes && i < |node.children| && Settled(node)
      ensures var c := node.children[i];
              c in nodes && c.parent == node && Inherited(node) && c.path == node.path + [c.regionName]
              && node.aaRtsId < c.aaRtsId <= lastRtsId
    {
      ChildrenApart(node, i, i, node.path);
    }

    /** Settles every node below `node`; the name stack is left as it was found. */
    method SetCallPaths(node: Rts, callpathStrings: seq<string>) returns (rest: seq<string>)
      requires Shape() && Numbered() && ParamsOk() && node in nodes
      requires callpathStrings + [node.regionName] == node.path
      requires node.parent != null ==> node.parent in nodes && Inherited(node.parent)
      modifies nodes`callpathstring, nodes`isValidRts, nodes`parameter
      ensures ParamsOk() && rest == callpathStrings
      ensures SettledSubtree(node) && OnlyBelow(index, node, old(Infos()), Infos())
      decreases lastRtsId - node.aaRtsId
    {
      hide *;
      rest := callpathStrings + [node.regionName];
      ghost var was := Infos();
      SettleNode(node, rest);
      OneNodeSettled(node);
      NothingBelow(node);
      if |node.children| == 0 {
        rest := rest[..|rest| - 1];
      }
      var i := 0;
      while i < |node.children|
        invariant i <= |node.children|
        invariant ParamsOk() && Settled(node) && SettledBelow(node, i)
        invariant rest == if i == |node.children| then callpathStrings else node.path
        invariant OnlyBelow(index, node, was, Infos())
      {
        ChildSettles(node, i);
        ghost var before, child := Infos(), node.children[i];
        label Before:
        rest := SetCallPaths(node.children[i], rest);
        SettledBelowNext@Before(node, i);
        UnchangedStaysSettled@Before(node, child);
        OnlyBelowTrans(index, node, node.children[i], was, before, Infos());
        i := i + 1;
        if i == |node.children| {
          if |rest| != 0 {
            rest := rest[..|rest| - 1];
          }
          break;
        }
      }
      SettledAll(node);
    }

    /** What was merged before, or nothing. */
    ghost function IdsSoFar(): map<Path, Ids>
      reads this`root, this`index, this`nodes, nodes`scorepId, nodes`parentScorepId
    {
      if root == null then map[] else PathIds()
    }

    ghost function RootName(buf: seq<Record>): string
      requires buf != []
      reads this`root
    {
      if root == null then buf[0].name else root.regionName
    }

    lemma EmptyTree()
      requires Valid() && root == null
      ensures nodes == {} && index == map[] && created == [] && rtsToSerialize == [] && lastRtsId == 0
    {
      assert forall p :: p in index ==> index[p] in nodes;
      FirstIsNode();
    }

    lemma FirstIsNode()
      requires Valid()
      ensures created != [] ==> created[0] in nodes
      ensures rtsToSerialize != [] ==> created != []
    {
    }

    lemma RootAlone()
      requires root != null && nodes == {root} && root.path == [root.regionName]
      requires index == map[root.path := root] && created == rtsToSerialize == [root]
      requires root.parent == null && root.children == [] && root.aaRtsId == lastRtsId == 1
      requires root.parentScorepId == 0
      ensures Valid() && RootFlagged()
    {
      assert NodeOk(root);
    }

    method MakeRoot(record: Record)
      requires Valid() && root == null && record.parentScorepId == 0
      modifies this`root, this`lastRtsId, this`rtsToSerialize, this`index, this`nodes, this`created
      ensures Valid() && RootFlagged() && root != null && fresh(root) && nodes == {root} && old(nodes) == {}
      ensures root.regionName == record.name && root.path == [record.name] && Unmerged(root)
      ensures root.scorepId == record.scorepId
      ensures old(index) == map[] && index == map[root.path := root]
      ensures old(created) == old(rtsToSerialize) == [] && created == rtsToSerialize == [root]
    {
      hide *;
      EmptyTree();
      root := new Rts(record, [record.name]);
      lastRtsId := lastRtsId + 1;
      root.aaRtsId := lastRtsId;
      rtsToSerialize := rtsToSerialize + [root];
      index, nodes, created := map[root.path := root], {root}, [root];
      RootAlone();
    }

    /** The first record makes the root of an empty tree, or hands its id to the root. */
    method PlaceRoot(record: Record)
      requires Valid() && RootFlagged() && record.parentScorepId == 0
      modifies this`root, this`lastRtsId, this`rtsToSerialize, this`index, this`nodes, this`created
      modifies nodes`scorepId, nodes`parentScorepId
      ensures Valid() && RootFlagged() && root != null
      ensures old(root) == null ==> fresh(root) && root.regionName == record.name && Unmerged(root) && old(nodes) == {}
      ensures old(root) != null ==> root == old(root) && nodes == old(nodes)
      ensures nodes == old(nodes) + {root} && root.path == [root.regionName] && root.scorepId == record.scorepId
      ensures PathIds() == old(IdsSoFar())[root.path := IdsOf(record)]
      ensures Grown(old(index), old(created), old(rtsToSerialize), index, created, rtsToSerialize)
    {
      if root == null {
        MakeRoot(record);
        assert IdsSoFar() == map[root.path := IdsOf(record)];
      } else {
        ReuseRoot(record);
      }
    }

    method ReuseRoot(record: Record)
      requires Valid() && RootFlagged() && root != null && record.parentScorepId == 0
      modifies nodes`scorepId, nodes`parentScorepId
      ensures Valid() && RootFlagged() && root in nodes && root.path == [root.regionName]
      ensures root.scorepId == record.scorepId
      ensures PathIds() == old(PathIds())[root.path := IdsOf(record)]
    {
      hide *;
      ValidMeans();
      ShapeMeans();
      ReuseNode(root, record);
      StillFlagged(root);
    }

    lemma ReadyAfterRoot(ids0: map<Path, Ids>, buf: seq<Record>)
      requires Valid() && RootFlagged() && root != null && WellFormed(buf) && bufferIndex == 1
      requires root.path == [root.regionName]
      requires PathIds() == ids0[root.path := IdsOf(buf[0])]
      requires NoStaleIds(ids0, buf, 0, root.regionName)
      ensures Ready(root, buf, 0)
      ensures Replay(ids0, buf, 0, root.regionName) == Replay(PathIds(), buf, 1, root.regionName)
    {
      assert RecordPath(buf, 0, root.regionName) == root.path;
      NoStaleIdsNext(ids0, buf, 0, root.regionName);
      ReplayStep(ids0, buf, 0, root.regionName);
      assert bufferIndex < |buf| ==> InPreorder(buf, 1);
    }

    lemma ShapeMeans()
      requires Shape()
      ensures ParentClosed(index.Keys)
      ensures root != null ==> root in nodes && root.path == [root.regionName] && root.parent == null
      ensures forall p :: p in index ==> p != [] && index[p] in nodes && index[p].path == p
      ensures forall n :: n in nodes ==> n.path in index && root != null && root.path <= n.path
    {
      if root != null {
        assert NodeOk(root);
      }
      forall p | p in index
        ensures p != [] && (|p| > 1 ==> Init(p) in index) && (|p| == 1 ==> p == root.path)
      {
        assert NodeOk(index[p]);
        assert index[p] != root ==> NodeOk(index[p].parent);
        if |p| > 1 {
          assert index[p] != root;
          assert Init(p) == index[p].parent.path;
        }
      }
      forall n | n in nodes
        ensures root.path <= n.path
      {
        BelowTop(index.Keys, root.path, n.path);
      }
    }

    /** Adding nodes that list only their own parameter keeps every list within its chain. */
    twostate lemma ParamsStayOk()
      requires old(Shape()) && Shape() && old(ParamsOk()) && old(nodes) <= nodes
      requires ParentClosed(old(index).Keys)
      requires forall p :: p in old(index) ==> p in index && index[p] == old(index)[p]
      requires forall n {:trigger n in old(nodes)} :: n in old(nodes) ==> n.parameter == old(n.parameter)
      requires forall n :: n in nodes && n !in old(nodes) ==> Unmerged(n)
      ensures ParamsOk()
    {
      forall n | n in nodes
        ensures ParamOk(n)
      {
        if n in old(nodes) {
          assert old(ParamOk(n));
          ChainOwnsGrown(old(index), index, n.path);
        } else {
          assert NodeOk(n);
          if n.own == [] {
            assert Elems(n.own) == {};
          }
        }
      }
    }

    lemma AtStart(buf: seq<Record>)
      requires Valid() && WellFormed(buf)
      ensures Shape() && Numbered() && ParentClosed(index.Keys)
      ensures buf != [] && ParentsKnown(buf) && buf[0].parentScorepId == 0 && IsRoot(buf, 0)
      ensures RootName(buf) == if root == null then buf[0].name else root.regionName
    {
      ShapeMeans();
    }

    lemma AfterInsert()
      requires Valid()
      ensures Shape() && Numbered()
      ensures root != null ==> root in nodes && root.path == [root.regionName] && root.parent == null
    {
      ShapeMeans();
    }

    /** Places the first record and points the cursor at the second. */
    method StartBuffer(buf: seq<Record>, ghost ids0: map<Path, Ids>, ghost rn: string)
      requires Valid() && RootFlagged() && WellFormed(buf)
      requires ids0 == IdsSoFar() && rn == RootName(buf) && NoStaleIds(ids0, buf, 0, rn)
      modifies this`root, this`lastRtsId, this`rtsToSerialize, this`index, this`nodes, this`created
      modifies this`bufferIndex, nodes`scorepId, nodes`parentScorepId
      ensures root != null && Ready(root, buf, 0) && bufferIndex == 1 && root.scorepId == buf[0].scorepId
      ensures old(nodes) <= nodes && fresh(nodes - old(nodes))
      ensures forall n :: n in nodes && n !in old(nodes) ==> Unmerged(n)
      ensures old(root) != null ==> root == old(root)
      ensures root.path == [rn] && root.regionName == rn
      ensures Replay(PathIds(), buf, 1, rn) == Replay(ids0, buf, 0, rn)
      ensures Grown(old(index), old(created), old(rtsToSerialize), index, created, rtsToSerialize)
    {
      hide *;
      AtStart(buf);
      PlaceRoot(buf[0]);
      bufferIndex := 1;
      assert Valid() && RootFlagged() && PathIds() == ids0[root.path := IdsOf(buf[0])];
      ReadyAfterRoot(ids0, buf);
    }

    method RegisterRoot()
      requires root != null
      modifies this`scorepidToRts
      ensures scorepidToRts == if root.scorepId in old(scorepidToRts) then old(scorepidToRts)
                               else old(scorepidToRts)[root.scorepId := root]
    {
      if root.scorepId !in scorepidToRts {
        scorepidToRts := scorepidToRts[root.scorepId := root];
      }
    }

    lemma IdsLeadTo(m0: map<int, Rts>, buf: seq<Record>, rootName: string)
      requires Valid() && ParentsKnown(buf) && buf != []
      requires IdMapped(m0, scorepidToRts, buf, 0, rootName) && IdsMapped(m0, scorepidToRts, buf, 0, rootName)
      requires NewIdsInTree(m0, scorepidToRts, nodes)
      ensures IdsLead(m0, scorepidToRts, buf, rootName, index)
    {
      hide RecordPath, NodeOk, IsRoot;
      var m := scorepidToRts;
      forall i: nat | i < |buf| && (i == 0 || !IsRoot(buf, i))
        ensures IdLeads(m0, m, buf, i, rootName, index)
      {
        assert IdMapped(m0, m, buf, i, rootName);
        var id := buf[i].scorepId;
        if id !in m0 {
          assert m[id] in nodes;
        }
      }
    }

    lemma BufferIdsLead(m0: map<int, Rts>, m1: map<int, Rts>, buf: seq<Record>)
      requires Valid() && WellFormed(buf) && ParentsKnown(buf) && root != null
      requires m1 == if buf[0].scorepId in m0 then m0 else m0[buf[0].scorepId := root]
      requires IdsMapped(m1, scorepidToRts, buf, 1, root.regionName) && NewIdsInTree(m1, scorepidToRts, nodes)
      ensures IdsLead(m0, scorepidToRts, buf, root.regionName, index)
    {
      hide *;
      AfterInsert();
      AtStart(buf);
      IdsMappedFirst(m0, m1, scorepidToRts, buf, root, root.regionName);
      NewIdsStep(m0, m1, scorepidToRts, buf, 0, root, nodes, root.regionName);
      IdsLeadTo(m0, buf, root.regionName);
    }

    /** Merges the records of a buffer. */
    method MergeBuffer(buf: seq<Record>)
      requires Valid() && RootFlagged()
      requires WellFormed(buf) && NoStaleIds(IdsSoFar(), buf, 0, RootName(buf))
      modifies this
      modifies nodes`children, nodes`scorepId, nodes`parentScorepId
      ensures Valid() && RootFlagged() && root != null
      ensures root.regionName == old(RootName(buf)) && (old(root) != null ==> root == old(root))
      ensures PathIds() == Replay(old(IdsSoFar()), buf, 0, root.regionName)
      ensures Grown(old(index), old(created), old(rtsToSerialize), index, created, rtsToSerialize)
      ensures old(nodes) <= nodes && fresh(nodes - old(nodes))
      ensures forall n :: n in nodes && n !in old(nodes) ==> Unmerged(n)
      ensures IdsLead(old(scorepidToRts), scorepidToRts, buf, root.regionName, index)
    {
      hide *;
      AtStart(buf);
      StartBuffer(buf, IdsSoFar(), RootName(buf));
      RegisterRoot();
      ghost var index1, created1, rts1, m1 := index, created, rtsToSerialize, scorepidToRts;
      InsertNode(root, buf, 0);
      GrownTrans(old(index), old(created), old(rtsToSerialize), index1, created1, rts1, index, created, rtsToSerialize);
      BufferIdsLead(old(scorepidToRts), m1, buf);
    }

    /** Merges the buffer of one process, all its threads, and settles every node. */
    method ConstructAagentCalltree(buf: seq<Record>)
      requires Valid() && RootFlagged() && ParamsOk()
      requires WellFormed(buf) && !IsParameterName(RootName(buf))
      requires NoStaleIds(IdsSoFar(), buf, 0, RootName(buf))
      modifies this, nodes
      ensures Valid() && RootFlagged() && ParamsOk() && root != null
      ensures root.regionName == old(RootName(buf)) && (old(root) != null ==> root == old(root))
      ensures PathIds() == Replay(old(IdsSoFar()), buf, 0, root.regionName)
      ensures Grown(old(index), old(created), old(rtsToSerialize), index, created, rtsToSerialize)
      ensures old(nodes) <= nodes && fresh(nodes - old(nodes))
      ensures SettledSubtree(root)
      ensures IdsLead(old(scorepidToRts), scorepidToRts, buf, root.regionName, index)
    {
      hide *;
      AtStart(buf);
      MergeBuffer(buf);
      GrownMeans(old(index), old(created), old(rtsToSerialize), index, created, rtsToSerialize);
      AfterInsert();
      ParamsStayOk();
      var _ := SetCallPaths(root, []);
    }

    /** Score-P ids are assigned afresh in every process: the table is emptied after each buffer. */
    method ClearScorepidToRtsMapping()
      modifies this`scorepidToRts
      ensures scorepidToRts == map[]
    {
      scorepidToRts := map[];
    }

    /** What was sent need not be sent again. */
    method ClearRtsToSerialize()
      requires Valid()
      modifies this`rtsToSerialize
      ensures Valid() && rtsToSerialize == []
    {
      hide Shape;
      rtsToSerialize := [];
    }

    /** The state after the first `i` buffers of the run. */
    ghost predicate AfterBuffers(buffers: seq<seq<Record>>, i: nat, rn: string)
      requires AllWellFormed(buffers) && i <= |buffers|
      reads this`root, this`index, this`nodes, this`lastRtsId, this`created, this`rtsToSerialize
      reads nodes`parent, nodes`children, nodes`aaRtsId, nodes`scorepId, nodes`parentScorepId
      reads nodes`parameter, nodes`callpathstring, nodes`isValidRts
    {
      && Valid() && RootFlagged() && ParamsOk()
      && (i == 0 <==> root == null)
      && IdsSoFar() == ReplayAll(buffers, i, rn)
      && (root != null ==> root.regionName == rn && SettledSubtree(root))
      && rtsToSerialize == created
    }

    lemma AfterBuffersMeans(buffers: seq<seq<Record>>, i: nat, rn: string)
      requires AllWellFormed(buffers) && i < |buffers| && AfterBuffers(buffers, i, rn) && Consistent(buffers, rn)
      requires buffers[0] != [] && rn == buffers[0][0].name
      ensures Valid() && RootFlagged() && ParamsOk() && WellFormed(buffers[i])
      ensures RootName(buffers[i]) == rn && NoStaleIds(IdsSoFar(), buffers[i], 0, rn)
      ensures |rtsToSerialize| == |created|
      ensures ReplayAll(buffers, i + 1, rn) == Replay(IdsSoFar(), buffers[i], 0, rn)
    {
      NeverStale(buffers, i, rn);
      ReplayAllStep(buffers, i, rn);
    }

    lemma AfterBuffersNext(buffers: seq<seq<Record>>, i: nat, rn: string)
      requires AllWellFormed(buffers) && i < |buffers|
      requires Valid() && RootFlagged() && ParamsOk() && root != null && root.regionName == rn && SettledSubtree(root)
      requires PathIds() == ReplayAll(buffers, i + 1, rn) && |rtsToSerialize| == |created|
      ensures AfterBuffers(buffers, i + 1, rn)
    {
      ValidMeans();
    }

    /** Merges one process's buffer and empties the id table for the next. */
    method MergeProcess(buffers: seq<seq<Record>>, i: nat, ghost rn: string)
      requires AllWellFormed(buffers) && i < |buffers| && AfterBuffers(buffers, i, rn) && Consistent(buffers, rn)
      requires buffers[0] != [] && rn == buffers[0][0].name && !IsParameterName(rn)
      modifies this, nodes
      ensures AfterBuffers(buffers, i + 1, rn) && fresh(nodes - old(nodes))
    {
      hide *;
      AfterBuffersMeans(buffers, i, rn);
      ConstructAagentCalltree(buffers[i]);
      GrownMeans(old(index), old(created), old(rtsToSerialize), index, created, rtsToSerialize);
      AfterBuffersNext(buffers, i, rn);
      ClearScorepidToRtsMapping();
    }

    /** Merges the buffers of all processes, in the order they arrive, into the empty tree: the
        tree then holds exactly the call paths the buffers mention. */
    method ConstructFrom(buffers: seq<seq<Record>>)
      requires Valid() && RootFlagged() && ParamsOk() && root == null
      requires buffers != [] && AllWellFormed(buffers) && buffers[0] != []
      requires Consistent(buffers, buffers[0][0].name) && !IsParameterName(buffers[0][0].name)
      modifies this, nodes
      ensures Valid() && RootFlagged() && ParamsOk() && root != null && root.regionName == buffers[0][0].name
      ensures index.Keys == AllPaths(buffers, |buffers|, root.regionName)
      ensures PathIds() == ReplayAll(buffers, |buffers|, root.regionName)
      ensures SettledSubtree(root) && rtsToSerialize == created && fresh(nodes)
    {
      hide *;
      ghost var rn := buffers[0][0].name;
      AfterNone(buffers, rn);
      for i := 0 to |buffers|
        invariant AfterBuffers(buffers, i, rn) && fresh(nodes)
      {
        MergeProcess(buffers, i, rn);
      }
      AfterAll(buffers, rn);
    }

    lemma AfterNone(buffers: seq<seq<Record>>, rn: string)
      requires Valid() && RootFlagged() && ParamsOk() && root == null && AllWellFormed(buffers)
      ensures AfterBuffers(buffers, 0, rn) && nodes == {}
    {
      EmptyTree();
    }

    lemma AfterAll(buffers: seq<seq<Record>>, rn: string)
      requires AllWellFormed(buffers) && buffers != [] && AfterBuffers(buffers, |buffers|, rn)
      ensures Valid() && RootFlagged() && ParamsOk() && root != null && root.regionName == rn
      ensures index.Keys == AllPaths(buffers, |buffers|, root.regionName)
      ensures PathIds() == ReplayAll(buffers, |buffers|, root.regionName)
      ensures SettledSubtree(root) && rtsToSerialize == created
    {
      ReplayAllPaths(buffers, |buffers|, rn);
    }

    /** No node at or below the first `i` children carries the call-path string. */
    ghost predicate AbsentBelow(node: Rts, callpath: string, i: nat)
      requires i <= |node.children|
      reads this`nodes, node`children, nodes`callpathstring
    {
      forall n, k :: n in nodes && 0 <= k < i && node.children[k].path <= n.path ==> n.callpathstring != callpath
    }

    ghost predicate Absent(node: Rts, callpath: string)
      reads this`nodes, nodes`callpathstring
    {
      forall n :: n in nodes && node.path <= n.path ==> n.callpathstring != callpath
    }

    lemma AbsentNext(node: Rts, callpath: string, i: nat)
      requires i < |node.children| && AbsentBelow(node, callpath, i) && Absent(node.children[i], callpath)
      ensures AbsentBelow(node, callpath, i + 1)
    {
    }

    lemma AbsentAll(node: Rts, callpath: string)
      requires Shape() && node in nodes && node.callpathstring != callpath
      requires AbsentBelow(node, callpath, |node.children|)
      ensures Absent(node, callpath)
    {
      forall n | n in nodes && node.path <= n.path
        ensures n.callpathstring != callpath
      {
        if n != node {
          BelowAChild(node, n);
        }
      }
    }

    lemma ChildInTree(node: Rts, i: nat)
      requires Shape() && Numbered() && node in nodes && i < |node.children|
      ensures var c := node.children[i]; c in nodes && node.path <= c.path && node.aaRtsId < c.aaRtsId <= lastRtsId
    {
      ChildrenApart(node, i, i, node.path);
    }

    /** The first node in depth-first order, at or below `node`, with the given call-path string. */
    method GetRtsByCallpath(node: Rts, callpath: string) returns (found: Rts?)
      requires Shape() && Numbered() && node in nodes
      ensures found != null ==> found in nodes && node.path <= found.path && found.callpathstring == callpath
      ensures found == null ==> Absent(node, callpath)
      decreases lastRtsId - node.aaRtsId
    {
      hide *;
      if node.callpathstring == callpath {
        return node;
      }
      NoneBelowYet(node, callpath);
      for i := 0 to |node.children|
        invariant AbsentBelow(node, callpath, i)
      {
        ChildInTree(node, i);
        found := GetRtsByCallpath(node.children[i], callpath);
        if found != null {
          return;
        }
        AbsentNext(node, callpath, i);
      }
      found := null;
      AbsentAll(node, callpath);
    }

    lemma NoneBelowYet(node: Rts, callpath: string)
      ensures AbsentBelow(node, callpath, 0)
    {
    }

    ghost predicate NamesSlashFree()
      reads this`index
    {
      forall p :: p in index ==> AllSlashFree(p)
    }

    lemma PresentIsFound(p: Path)
      requires Shape() && root != null && SettledSubtree(root) && p in index
      ensures !Absent(root, Join(p))
    {
      ShapeMeans();
      assert Settled(index[p]);
    }

    lemma FoundIsIt(found: Rts, p: Path)
      requires Shape() && root != null && SettledSubtree(root) && NamesSlashFree() && AllSlashFree(p)
      requires found in nodes && found.callpathstring == Join(p)
      ensures p in index && index[p] == found
    {
      ShapeMeans();
      assert Settled(found);
      JoinInjective(found.path, p);
    }

    /** In a settled tree a node is found by its own string, and an absent path is not found. */
    method FindByPath(p: Path) returns (found: Rts?)
      requires Valid() && root != null && SettledSubtree(root) && NamesSlashFree() && AllSlashFree(p)
      ensures found == if p in index then index[p] else null
    {
      hide *;
      AfterInsert();
      var callpath := MakeCallpathString(p);
      found := GetRtsByCallpath(root, callpath);
      if found == null {
        if p in index {
          PresentIsFound(p);
        }
      } else {
        FoundIsIt(found, p);
      }
    }

    /** The order in which the nodes were created, as call paths. */
    ghost function CreationPaths(): (ps: seq<Path>)
      reads this`created
      ensures |ps| == |created| && forall k :: 0 <= k < |ps| ==> ps[k] == created[k].path
    {
      var nodesInOrder := created;
      seq(|nodesInOrder|, k requires 0 <= k < |nodesInOrder| => nodesInOrder[k].path)
    }

    /** The creation order names every call path of the tree once, a parent before its children;
        only the root carries parent id 0. */
    lemma CreationOrder()
      requires Valid() && RootFlagged()
      ensures ParentsFirst(CreationPaths())
      ensures Elems(CreationPaths()) == index.Keys
      ensures forall k :: 0 <= k < |created| ==>
                created[k] in nodes && (created[k].parentScorepId == 0 <==> |created[k].path| == 1)
    {
      var ps := CreationPaths();
      forall p | p in index.Keys
        ensures p in Elems(ps)
      {
        assert index[p] in nodes;
        assert ps[index[p].aaRtsId - 1] == p;
      }
      forall k | 0 <= k < |ps|
        ensures ps[k] in index && ps[k] != [] && (created[k].parentScorepId == 0 <==> |ps[k]| == 1)
        ensures |ps[k]| > 1 ==> exists j :: 0 <= j < k && ps[j] == Init(ps[k])
      {
        var n := created[k];
        assert NodeOk(n);
        if n != root {
          assert NodeOk(n.parent);
          assert ps[n.parent.aaRtsId - 1] == Init(n.path);
        }
      }
      forall j, k | 0 <= j < k < |ps|
        ensures ps[j] != ps[k]
      {
        assert created[j].aaRtsId != created[k].aaRtsId;
      }
    }
  }

  /** The only child in a tree of two nodes, and what a lookup of its id finds. */
  lemma OnlyChild(tree: AgentCallTree, record: Record)
    requires tree.Valid() && tree.root != null && tree.root.path == ["main"]
    requires tree.PathIds() == map[["main"] := Ids(1, 0), ["main", "init"] := Ids(record.scorepId, 1)]
    ensures var root := tree.root;
            && root in tree.nodes && |root.children| == 1 && root.children[0] in tree.nodes
            && root.children[0].path == ["main", "init"] && root.children[0].regionName == "init"
            && FirstMatch(tree.Labels(root.children), Label(record.scorepId, record.name)) == 0
  {
    var root := tree.root;
    assert tree.PathIds().Keys == tree.index.Keys;
    assert ["main", "init"] in tree.index;
    var child := tree.index[["main", "init"]];
    assert tree.NodeOk(root) && tree.NodeOk(child) && child != root && tree.NodeOk(child.parent);
    assert child.parent.path == ["main"] by {
      assert child.parent.path == Init(["main", "init"]);
    }
    assert child.parent == root && child in root.children;
    assert |root.children| >= 2 ==> root.children[0].regionName != root.children[1].regionName;
    forall c | c in root.children
      ensures c == child && c.regionName == "init"
    {
      assert tree.NodeOk(c) && |c.path| == 2 && c.path in tree.index;
    }
    assert tree.PathIds()[child.path].scorepId == child.scorepId;
    assert Matches(tree.Labels(root.children)[0], Label(record.scorepId, record.name));
  }

  /** Merging two well-formed buffers that use one id for two children of the root: the second
      process's record is merged into the node of the first, and its own call path is nowhere. */
  method MergeSameId() returns (tree: AgentCallTree, found: Rts?)
    ensures WellFormed(INIT_BUFFER) && WellFormed(SOLVE_BUFFER)
    ensures fresh(tree) && tree.Valid() && tree.root != null && found != null && found in tree.nodes
    ensures found.regionName == "init" && found.scorepId == SOLVE_BUFFER[1].scorepId
    ensures tree.PathIds().Keys == {["main"], ["main", "init"]}
    ensures RecordPath(SOLVE_BUFFER, 1, "main") == ["main", "solve"] && ["main", "solve"] !in tree.PathIds()
  {
    hide *;
    SameIdTwice();
    tree := new AgentCallTree();
    StartsEmpty(tree);
    tree.MergeBuffer(INIT_BUFFER);
    TopNode(tree);
    tree.ReuseNode(tree.root, SOLVE_BUFFER[0]);
    OnlyChild(tree, SOLVE_BUFFER[1]);
    found := tree.FindNode(tree.root, SOLVE_BUFFER[1]);
    tree.ReuseNode(found, SOLVE_BUFFER[1]);
  }

  lemma StartsEmpty(tree: AgentCallTree)
    requires tree.root == null
    ensures tree.IdsSoFar() == map[] && tree.RootName(INIT_BUFFER) == "main"
    ensures |SOLVE_BUFFER| == 2 && SOLVE_BUFFER[1].scorepId == 7
    ensures IdsOf(SOLVE_BUFFER[0]) == Ids(1, 0) && IdsOf(SOLVE_BUFFER[1]) == Ids(7, 1)
  {
  }

  lemma TopNode(tree: AgentCallTree)
    requires tree.Valid() && tree.root != null
    ensures tree.root in tree.nodes && tree.root.path == [tree.root.regionName]
  {
    assert tree.NodeOk(tree.root);
  }

  lemma IdsMappedEnds(m: map<int, Rts>, buf: seq<Record>, rootName: string)
    requires ParentsKnown(buf)
    ensures IdsMapped(m, m, buf, |buf|, rootName)
  {
  }

  lemma IdsMappedRoot(m0: map<int, Rts>, m: map<int, Rts>, buf: seq<Record>, i: nat, rootName: string)
    requires ParentsKnown(buf) && i < |buf| && IsRoot(buf, i) && IdsMapped(m0, m, buf, i + 1, rootName)
    ensures IdsMapped(m0, m, buf, i, rootName)
  {
  }

  lemma IdsMappedStep(m0: map<int, Rts>, m1: map<int, Rts>, m: map<int, Rts>, buf: seq<Record>, i: nat, n: Rts,
                      rootName: string)
    requires WellFormed(buf) && ParentsKnown(buf) && i < |buf|
    requires n.path == RecordPath(buf, i, rootName)
    requires m1 == if buf[i].scorepId in m0 then m0 else m0[buf[i].scorepId := n]
    requires IdsMapped(m1, m, buf, i + 1, rootName)
    ensures IdsMapped(m0, m, buf, i, rootName)
  {
    forall j | i <= j < |buf| && !IsRoot(buf, j)
      ensures IdMapped(m0, m, buf, j, rootName)
    {
      if j != i {
        assert IdMapped(m1, m, buf, j, rootName);
      }
    }
  }

  lemma IdsMappedFirst(m0: map<int, Rts>, m1: map<int, Rts>, m: map<int, Rts>, buf: seq<Record>, root: Rts,
                       rootName: string)
    requires WellFormed(buf) && root.path == [rootName]
    requires m1 == if buf[0].scorepId in m0 then m0 else m0[buf[0].scorepId := root]
    requires IdsMapped(m1, m, buf, 1, rootName)
    ensures IdMapped(m0, m, buf, 0, rootName) && IdsMapped(m0, m, buf, 0, rootName)
  {
    IdsMappedStep(m0, m1, m, buf, 0, root, rootName);
  }

  lemma NoNewIds(m: map<int, Rts>, nodes: set<Rts>)
    ensures NewIdsInTree(m, m, nodes)
  {
  }

  lemma NewIdsStep(m0: map<int, Rts>, m1: map<int, Rts>, m: map<int, Rts>, buf: seq<Record>, i: nat, n: Rts,
                   nodes: set<Rts>, rootName: string)
    requires ParentsKnown(buf) && i < |buf| && n in nodes
    requires m1 == if buf[i].scorepId in m0 then m0 else m0[buf[i].scorepId := n]
    requires IdsMapped(m1, m, buf, i + 1, rootName) && NewIdsInTree(m1, m, nodes)
    ensures NewIdsInTree(m0, m, nodes)
  {
  }
}
