/** The frontend's copy of the call tree, put together from single nodes in order of arrival. */
module FrontendTree {
  import opened CallPaths
  import opened Sequences
  import opened NodeStreams
  import opened CallTree
  import opened RegionNames
  import opened ScorepRecords
  import opened TreeReplay

  /** A node as an agent sends it. */
  datatype Message = Message(callpath: string, regionName: string, scorepId: int, parentScorepId: int)

  /** The message for a node at call path `p`: only a root has parent id 0. */
  ghost predicate Sends(m: Message, p: Path) {
    && p != [] && AllSlashFree(p)
    && m.callpath == Join(p) && m.regionName == Last(p)
    && (m.parentScorepId == 0 <==> IsRootPath(p))
  }

  class FrontendCallTree {
    var root: Rts?
    ghost var index: map<Path, Rts>   // every node under its call path
    ghost var nodes: set<Rts>
    ghost var depth: nat              // no call path is longer

    ghost predicate NodeOk(n: Rts)
      requires n in nodes
      reads this`root, this`nodes, this`depth, nodes`parent, nodes`children, nodes`callpathstring
    {
      && n.path != [] && |n.path| <= depth && AllSlashFree(n.path) && n.callpathstring == Join(n.path)
      && n.regionName == Last(n.path)
      && (n == root <==> IsRootPath(n.path))
      && (n != root ==>
            n.parent != null && n.parent in nodes && n in n.parent.children && n.parent.path == Init(n.path))
      && (forall c :: c in n.children ==> c in nodes && c.parent == n && c != root)
      && (forall j, k :: 0 <= j < k < |n.children| ==> n.children[j].path != n.children[k].path)
    }

    ghost predicate Valid()
      reads this`root, this`index, this`nodes, this`depth, nodes`parent, nodes`children, nodes`callpathstring
    {
      && (root == null ==> nodes == {})
      && (root != null ==> root in nodes)
      && (forall p :: p in index ==> index[p] in nodes && index[p].path == p)
      && (forall n :: n in nodes ==> n.path in index && index[n.path] == n)
      && (forall n {:trigger NodeOk(n)} :: n in nodes ==> NodeOk(n))
    }

    constructor ()
      ensures Valid() && root == null && index == map[] && fresh(this)
    {
      root, index, nodes, depth := null, map[], {}, 0;
    }

    ghost predicate HasChild(node: Rts, p: Path)
      reads node`children
    {
      exists c :: c in node.children && c.path == p
    }

    /** The child with the same call-path string. */
    method FindFrontendNode(node: Rts, current: Rts) returns (found: Rts?)
      requires Valid() && node in nodes
      requires AllSlashFree(current.path) && current.callpathstring == Join(current.path)
      ensures found == null <==> !HasChild(node, current.path)
      ensures found != null ==> found in nodes && found.path == current.path
    {
      assert NodeOk(node);
      for i := 0 to |node.children|
        invariant forall k :: 0 <= k < i ==> node.children[k].path != current.path
      {
        assert NodeOk(node.children[i]);
        JoinInjective(node.children[i].path, current.path);
        if node.children[i].callpathstring == current.callpathstring {
          return node.children[i];
        }
      }
      return null;
    }

    /** A child is found at its parent or nowhere. */
    lemma ChildByPath(node: Rts, p: Path)
      requires Valid() && node in nodes && p != [] && Init(p) == node.path
      ensures HasChild(node, p) <==> p in index
    {
      assert NodeOk(node);
      if p in index {
        assert NodeOk(index[p]);
        assert index[p].parent == node;
      }
      forall c | c in node.children && c.path == p
        ensures p in index
      {
        assert index[c.path] == c;
      }
    }

    twostate predicate Linked(node: Rts, new n: Rts)
      reads this`root, this`index, this`nodes, this`depth, nodes`parent, nodes`children, nodes`callpathstring, n
    {
      && node in old(nodes) && n !in old(nodes) && nodes == old(nodes) + {n}
      && root == old(root) && root != null && n != root
      && n.path != [] && Init(n.path) == node.path && AllSlashFree(n.path) && n.callpathstring == Join(n.path)
      && n.regionName == Last(n.path)
      && n.path !in old(index) && index == old(index)[n.path := n]
      && depth == old(depth) && |n.path| <= depth
      && n.parent == node && n.children == []
      && node.children == old(node.children) + [n]
      && (forall m {:trigger m in old(nodes)} :: m in old(nodes) ==>
            m.parent == old(m.parent) && m.callpathstring == old(m.callpathstring))
      && (forall m {:trigger m in old(nodes)} :: m in old(nodes) && m != node ==> m.children == old(m.children))
    }

    twostate lemma LinkedNodeOk(new node: Rts, new n: Rts, new m: Rts)
      requires node in old(nodes) && old(Valid()) && Linked(node, n) && m in nodes
      ensures NodeOk(m)
    {
      if m != n {
        assert old(NodeOk(m));
        if m == node {
          assert forall c :: c in old(node.children) ==> old(index)[c.path] == c;
        }
      } else {
        assert old(NodeOk(node));
        assert |n.path| > 1;
      }
    }

    twostate lemma LinkedValid(node: Rts, new n: Rts)
      requires old(Valid()) && Linked(node, n)
      ensures Valid()
    {
      forall m | m in nodes
        ensures NodeOk(m)
      {
        LinkedNodeOk(node, n, m);
      }
    }

    /** A node as `FromMessage` leaves it; it may or may not be in the tree. */
    ghost predicate Incoming(current: Rts)
      reads this`depth, current`callpathstring
    {
      && current.path != [] && AllSlashFree(current.path) && !IsRootPath(current.path) && |current.path| <= depth
      && current.callpathstring == Join(current.path) && current.regionName == Last(current.path)
    }

    ghost predicate Loose(current: Rts)
      reads this`nodes, current`children
    {
      current !in nodes && current.children == []
    }

    lemma ValidMeans()
      requires Valid()
      ensures root != null ==> root in nodes
      ensures forall n :: n in nodes ==> n.path != [] && AllSlashFree(n.path) && n.callpathstring == Join(n.path)
      ensures forall n :: n in nodes ==> n.path in index && index[n.path] == n && |n.path| <= depth
      ensures forall p :: p in index ==> index[p] in nodes && index[p].path == p
    {
      forall n | n in nodes
        ensures n.path != [] && AllSlashFree(n.path) && n.callpathstring == Join(n.path) && |n.path| <= depth
      {
        assert NodeOk(n);
      }
    }

    /** The map after `current` was offered to the node at its parent's path. */
    ghost function WithNode(index0: map<Path, Rts>, current: Rts): map<Path, Rts> {
      if current.path in index0 then index0 else index0[current.path := current]
    }

    twostate lemma RaisedNodeOk(new n: Rts)
      requires old(Valid()) && root == old(root) && nodes == old(nodes) && old(depth) <= depth
      requires forall m {:trigger m in old(nodes)} :: m in old(nodes) ==>
                 m.parent == old(m.parent) && m.children == old(m.children) && m.callpathstring == old(m.callpathstring)
      requires n in nodes
      ensures NodeOk(n)
    {
      assert old(NodeOk(n));
    }

    twostate lemma RaisedValid()
      requires old(Valid()) && root == old(root) && nodes == old(nodes) && index == old(index) && old(depth) <= depth
      requires forall m {:trigger m in old(nodes)} :: m in old(nodes) ==>
                 m.parent == old(m.parent) && m.children == old(m.children) && m.callpathstring == old(m.callpathstring)
      ensures Valid()
    {
      forall n | n in nodes
        ensures NodeOk(n)
      {
        RaisedNodeOk(n);
      }
    }

    ghost method Raise(d: nat)
      requires Valid()
      modifies this`depth
      ensures Valid() && depth == if d <= old(depth) then old(depth) else d
    {
      hide *;
      depth := if d <= depth then depth else d;
      RaisedValid();
    }

    /** `node` is the parent of `current`: a second node for the same call path is discarded. */
    method AttachHere(node: Rts, current: Rts)
      requires Valid() && root != null && node in nodes
      requires Incoming(current) && Loose(current) && node.path == Init(current.path)
      modifies this`index, this`nodes, node`children, current`parent
      ensures Valid() && index == WithNode(old(index), current)
      ensures nodes == old(nodes) + if current.path in old(index) then {} else {current}
    {
      hide Valid, NodeOk;
      ValidMeans();
      ChildByPath(node, current.path);
      var foundnode := FindFrontendNode(node, current);
      if foundnode != null {
        return;
      }
      node.children := node.children + [current];
      current.parent := node;
      index, nodes := index[current.path := current], nodes + {current};
      LinkedValid(node, current);
    }

    /** The parent of `current` is in the tree, at or below `node`. */
    ghost predicate ParentBelow(node: Rts, current: Rts, index0: map<Path, Rts>) {
      current.path != [] && node.path <= Init(current.path) && Init(current.path) in index0
    }

    /** The parent of `current` is in the tree below one of the first `i` children. */
    ghost predicate ParentBelowFirst(node: Rts, i: nat, current: Rts, index0: map<Path, Rts>)
      requires i <= |node.children|
      reads node`children
    {
      exists k :: 0 <= k < i && ParentBelow(node.children[k], current, index0)
    }

    /** Every node at or below `node` is `node` or lies below one of its children. */
    lemma BelowAChild(node: Rts, n: Rts)
      requires Valid() && node in nodes && n in nodes && node.path <= n.path && n != node
      ensures exists k :: 0 <= k < |node.children| && node.children[k].path <= n.path
    {
      assert NodeOk(node) && index[n.path] == n && index[node.path] == node;
      ParentsThere();
      StepBelow(index.Keys, node.path, n.path);
      var step := node.path + [n.path[|node.path|]];
      assert Init(step) == node.path;
      ChildByPath(node, step);
      var k :| 0 <= k < |node.children| && node.children[k].path == step;
    }

    lemma ParentsThere()
      requires Valid()
      ensures ParentClosed(index.Keys)
    {
      forall p | p in index && |p| > 1
        ensures Init(p) in index
      {
        assert NodeOk(index[p]);
      }
    }

    /** A child continues its parent's path by one name, and two children never by the same. */
    lemma ChildrenApart(node: Rts, j: nat, k: nat, p: Path)
      requires Valid() && node in nodes && j < |node.children| && k < |node.children|
      ensures node.children[j] in nodes && node.children[j].path != [] && Init(node.children[j].path) == node.path
      ensures |node.path| < |node.children[j].path| <= depth
      ensures node.children[j].path <= p && node.children[k].path <= p ==> j == k
    {
      assert NodeOk(node) && NodeOk(node.children[j]) && NodeOk(node.children[k]);
      if node.children[j].path <= p && node.children[k].path <= p {
        assert node.children[j].path == p[..|node.path| + 1] == node.children[k].path;
      }
    }

    lemma NoneYet(node: Rts, current: Rts, index0: map<Path, Rts>)
      ensures !ParentBelowFirst(node, 0, current, index0)
    {
    }

    /** Going on to child `i`: its subtree holds the parent, or the answer so far stands. */
    lemma OneMore(node: Rts, i: nat, current: Rts, index0: map<Path, Rts>)
      requires i < |node.children|
      ensures ParentBelowFirst(node, i + 1, current, index0)
         <==> ParentBelowFirst(node, i, current, index0) || ParentBelow(node.children[i], current, index0)
    {
    }

    lemma Exclusive(node: Rts, i: nat, current: Rts, index0: map<Path, Rts>)
      requires Valid() && node in nodes && i < |node.children| && current.path != []
      ensures ParentBelowFirst(node, i, current, index0) ==> !ParentBelow(node.children[i], current, index0)
    {
      if ParentBelowFirst(node, i, current, index0) {
        var k :| 0 <= k < i && ParentBelow(node.children[k], current, index0);
        ChildrenApart(node, k, i, Init(current.path));
      }
    }

    lemma AllSeen(node: Rts, current: Rts, index0: map<Path, Rts>)
      requires Valid() && node in nodes && current.path != [] && node.path != Init(current.path)
      requires forall p :: p in index0 ==> p in index
      ensures ParentBelow(node, current, index0) ==> ParentBelowFirst(node, |node.children|, current, index0)
      ensures ParentBelowFirst(node, |node.children|, current, index0) ==> ParentBelow(node, current, index0)
    {
      var q := Init(current.path);
      if ParentBelow(node, current, index0) {
        BelowAChild(node, index[q]);
      }
      if ParentBelowFirst(node, |node.children|, current, index0) {
        var k :| 0 <= k < |node.children| && ParentBelow(node.children[k], current, index0);
        ChildrenApart(node, k, k, q);
      }
    }

    lemma StringTest(node: Rts, current: Rts)
      requires Valid() && node in nodes && Incoming(current)
      ensures current.path != []
      ensures current.callpathstring == node.callpathstring + "/" + current.regionName <==>
                node.path == Init(current.path)
      ensures node.path == Init(current.path) ==> ParentBelow(node, current, index)
    {
      ValidMeans();
      ParentTest(node.path, current.path);
    }

    /** Linking `current` itself does not change where its parent is. */
    lemma BelowStable(node: Rts, current: Rts, index0: map<Path, Rts>)
      requires current.path != []
      ensures ParentBelow(node, current, WithNode(index0, current)) <==> ParentBelow(node, current, index0)
      ensures forall p :: p in index0 ==> p in WithNode(index0, current)
      ensures WithNode(WithNode(index0, current), current) == WithNode(index0, current)
      ensures current.path in WithNode(index0, current)
    {
      assert |Init(current.path)| < |current.path|;
    }

    lemma BelowChildBelowNode(node: Rts, i: nat, current: Rts, index0: map<Path, Rts>)
      requires Valid() && node in nodes && i < |node.children| && ParentBelow(node.children[i], current, index0)
      ensures ParentBelow(node, current, index0)
    {
      ChildrenApart(node, i, i, node.path);
    }

    /** Offers `current` to every node at or below `node`: the one node that is its parent takes it,
        and no other node is touched. */
    method InsertFrontendNode(node: Rts, current: Rts)
      requires Valid() && root != null && node in nodes && Incoming(current)
      requires Loose(current) || !ParentBelow(node, current, index)
      modifies this`index, this`nodes, nodes`children, current`children, current`parent
      ensures Valid()
      ensures ParentBelow(node, current, old(index)) ==>
                && index == WithNode(old(index), current)
                && nodes == old(nodes) + if current.path in old(index) then {} else {current}
      ensures !ParentBelow(node, current, old(index)) ==>
                index == old(index) && nodes == old(nodes) && current.children == old(current.children)
      ensures forall n :: n in old(nodes) && n.path != Init(current.path) ==> n.children == old(n.children)
      decreases depth - |node.path|
    {
      hide Valid, NodeOk, Incoming, ParentBelow, ParentBelowFirst, WithNode, Join, AllSlashFree;
      StringTest(node, current);
      if current.callpathstring == node.callpathstring + "/" + current.regionName {
        AttachHere(node, current);
        return;
      }
      ghost var index0, nodes0 := index, nodes;
      NoneYet(node, current, index0);
      var i := 0;
      while i < |node.children|
        invariant i <= |node.children| && node.children == old(node.children)
        invariant Valid() && Incoming(current) && node in nodes && nodes0 <= nodes
        invariant ParentBelowFirst(node, i, current, index0) ==>
                    && index == WithNode(index0, current)
                    && nodes == nodes0 + if current.path in index0 then {} else {current}
        invariant !ParentBelowFirst(node, i, current, index0) ==>
                    && index == index0 && nodes == nodes0 && current.children == old(current.children)
        invariant forall n :: n in nodes0 && n.path != Init(current.path) ==> n.children == old(n.children)
      {
        OneMore(node, i, current, index0);
        Exclusive(node, i, current, index0);
        ChildrenApart(node, i, i, node.path);
        BelowStable(node.children[i], current, index0);
        if ParentBelow(node.children[i], current, index0) {
          BelowChildBelowNode(node, i, current, index0);
        }
        InsertFrontendNode(node.children[i], current);
        i := i + 1;
      }
      BelowStable(node, current, index0);
      AllSeen(node, current, index0);
    }

    /** The ids that each node holds. */
    ghost function NodeIds(): map<Path, Ids>
      reads this`index, this`nodes, nodes`scorepId, nodes`parentScorepId
    {
      map p | p in index ::
        if index[p] in nodes then Ids(index[p].scorepId, index[p].parentScorepId) else Ids(0, 0)
    }

    /** The call paths in the tree. */
    ghost function Have(): set<Path>
      reads this`index
    {
      index.Keys
    }

    lemma AllBelowRoot()
      requires Valid()
      ensures ParentClosed(index.Keys) && forall p :: p in index && |p| <= 1 ==> root != null && p == root.path
    {
      forall p | p in index
        ensures (|p| > 1 ==> Init(p) in index) && (|p| <= 1 ==> root != null && p == root.path)
      {
        assert NodeOk(index[p]);
      }
    }

    lemma RootAlone()
      requires root != null && nodes == {root} && index == map[root.path := root] && depth == 1
      requires AllSlashFree(root.path) && IsRootPath(root.path) && root.callpathstring == Join(root.path)
      requires root.regionName == Last(root.path) && root.parent == null && root.children == []
      ensures Valid()
    {
      assert NodeOk(root);
    }

    /** What the message says about the node made from it, and about the tree it meets. */
    lemma SendsMeans(m: Message, p: Path)
      requires Sends(m, p) && Valid()
      ensures p != [] && AllSlashFree(p) && m.callpath == Join(p) && m.regionName == Last(p)
      ensures m.parentScorepId == 0 <==> IsRootPath(p)
      ensures m.parentScorepId == 0 ==> Receive(Have(), p) == if Have() == {} then {p} else Have()
      ensures root == null <==> Have() == {}
      ensures root != null ==> root in nodes
    {
      ValidMeans();
      if root != null {
        assert root.path in index;
      }
    }

    lemma IncomingIf(current: Rts, p: Path)
      requires current.path == p != [] && AllSlashFree(p) && !IsRootPath(p) && |p| <= depth
      requires current.callpathstring == Join(p) && current.regionName == Last(p)
      ensures Incoming(current)
    {
    }

    lemma ReceivedNode(current: Rts, index0: map<Path, Rts>)
      requires Valid() && root != null && current.path != [] && !IsRootPath(current.path)
      requires forall q :: q in index0 ==> q in index && index[q] == index0[q]
      requires root.path in index0
      requires index == if ParentBelow(root, current, index0) then WithNode(index0, current) else index0
      ensures index.Keys == Receive(index0.Keys, current.path)
    {
      var q := Init(current.path);
      if q in index0 {
        AllBelowRoot();
        BelowTop(index.Keys, root.path, q);
      }
    }

    method StartTree(m: Message, ghost p: Path)
      requires Valid() && Sends(m, p) && root == null && IsRootPath(p)
      modifies this
      ensures Valid() && root != null && fresh(root) && nodes == {root} && Have() == {p} && root.path == p
      ensures NodeIds() == map[p := Ids(m.scorepId, m.parentScorepId)]
    {
      hide Valid, NodeOk, Sends;
      SendsMeans(m, p);
      root := new Rts.FromMessage(m.callpath, m.regionName, m.scorepId, m.parentScorepId, p);
      index, nodes, depth := map[p := root], {root}, 1;
      RootAlone();
    }

    method AddNode(m: Message, ghost p: Path)
      requires Valid() && Sends(m, p) && root != null && !IsRootPath(p)
      modifies this`index, this`nodes, this`depth, nodes`children
      ensures Valid() && Have() == Receive(old(Have()), p)
      ensures forall q :: q in old(index) ==> q in index && index[q] == old(index)[q]
      ensures fresh(nodes - old(nodes))
      ensures NodeIds() == if p in old(Have()) || p !in Have() then old(NodeIds())
                           else old(NodeIds())[p := Ids(m.scorepId, m.parentScorepId)]
    {
      hide Valid, NodeOk, Sends, Incoming, ParentBelow, Receive, Join, AllSlashFree;
      SendsMeans(m, p);
      ValidMeans();
      var current := new Rts.FromMessage(m.callpath, m.regionName, m.scorepId, m.parentScorepId, p);
      Raise(|p|);
      IncomingIf(current, p);
      ghost var index0 := index;
      InsertFrontendNode(root, current);
      ReceivedNode(current, index0);
      IdsAdded(current);
    }

    /** The one entry that may be new is that of the node that was added. */
    twostate lemma IdsAdded(new current: Rts)
      requires forall q :: q in old(index) ==> q in index && index[q] == old(index)[q]
      requires forall q :: q in index ==> q in old(index) || (q == current.path && index[q] == current)
      requires forall q :: q in old(index) ==> old(index)[q] in old(nodes) && old(index)[q] in nodes
      requires current.path in index ==> index[current.path] in nodes
      requires forall n {:trigger n in old(nodes)} :: n in old(nodes) ==>
                 n.scorepId == old(n.scorepId) && n.parentScorepId == old(n.parentScorepId)
      ensures NodeIds() == if current.path in old(index) || current.path !in index then old(NodeIds())
                           else old(NodeIds())[current.path := Ids(current.scorepId, current.parentScorepId)]
    {
      forall q | q in old(index)
        ensures NodeIds()[q] == old(NodeIds())[q]
      {
        assert old(index)[q] in old(nodes);
      }
    }

    /** One message: the first root starts the tree, later roots only bring new ids, and any other
        node goes below its parent, or is lost if the parent is not there. */
    method ConstructFrontendCalltree(m: Message, ghost p: Path)
      requires Valid() && Sends(m, p) && (root == null ==> IsRootPath(p))
      modifies this, nodes
      ensures Valid() && root != null && (old(root) != null ==> root == old(root))
      ensures Have() == Receive(old(Have()), p)
      ensures forall q :: q in old(index) ==> q in index && index[q] == old(index)[q]
      ensures fresh(nodes - old(nodes))
      ensures IsRootPath(p) ==> NodeIds() == old(NodeIds())[root.path := Ids(m.scorepId, m.parentScorepId)]
      ensures !IsRootPath(p) ==>
                NodeIds() == if p in old(Have()) || p !in Have() then old(NodeIds())
                             else old(NodeIds())[p := Ids(m.scorepId, m.parentScorepId)]
    {
      hide Valid, NodeOk, Sends, Receive;
      SendsMeans(m, p);
      if m.parentScorepId == 0 {
        if root == null {
          StartTree(m, p);
        } else {
          RootIndexed();
          root.scorepId, root.parentScorepId := m.scorepId, m.parentScorepId;
        }
        return;
      }
      AddNode(m, p);
    }

    lemma RootIndexed()
      requires Valid() && root != null
      ensures root.path in index && index[root.path] == root && root in nodes && IsRootPath(root.path)
      ensures forall q :: q in index ==> index[q] in nodes && (index[q] == root ==> q == root.path)
    {
      assert NodeOk(root);
    }

    /** A run of messages into an empty frontend.  A node holds the ids of the message that brought it; the
        root holds those of the last message for a root. */
    method ReceiveRun(messages: seq<Message>, ghost paths: seq<Path>)
      requires Valid() && root == null && |messages| == |paths|
      requires AllSend(messages, paths)
      requires paths != [] ==> IsRootPath(paths[0])
      modifies this, nodes
      ensures Valid() && forall k :: 0 <= k < |paths| ==> paths[k] != []
      ensures Have() == ReceiveAll({}, paths) && (paths != [] ==> root != null)
      ensures AllBrought(NodeIds(), messages, paths)
      ensures root != null ==> RootBrought(NodeIds(), root.path, messages, paths)
      ensures forall n :: n in nodes ==> (n.parentScorepId == 0 <==> n == root)
    {
      hide Valid, Receive, ReceiveAll, AllBrought, RootBrought, NodeIds;
      EmptyTree();
      NothingBrought(messages, paths);
      assert forall k :: 0 <= k < |paths| ==> paths[k] != [];
      for i := 0 to |messages|
        invariant Valid() && (i > 0 ==> root != null) && fresh(nodes)
        invariant Have() == NodeIds().Keys == ReceiveAll({}, paths[..i])
        invariant AllBrought(NodeIds(), messages[..i], paths[..i])
        invariant root != null ==> RootBrought(NodeIds(), root.path, messages[..i], paths[..i])
      {
        ghost var ids, have := NodeIds(), Have();
        ConstructFrontendCalltree(messages[i], paths[i]);
        RootIndexed();
        IdsOfAll();
        OneMoreBrought(ids, NodeIds(), root.path, messages, paths, i);
      }
      assert paths[..|paths|] == paths && messages[..|messages|] == messages;
      forall n | n in nodes
        ensures n.parentScorepId == 0 <==> n == root
      {
        NodeFlagged(n, messages, paths);
      }
    }

    /** Only the root is told by its parent id. */
    lemma NodeFlagged(n: Rts, messages: seq<Message>, paths: seq<Path>)
      requires Valid() && n in nodes && AllSend(messages, paths) && forall k :: 0 <= k < |paths| ==> paths[k] != []
      requires AllBrought(NodeIds(), messages, paths)
      requires root != null ==> RootBrought(NodeIds(), root.path, messages, paths)
      ensures n.parentScorepId == 0 <==> n == root
    {
      var p, ids := n.path, NodeIds();
      assert NodeOk(n) && index[p] == n && ids[p] == Ids(n.scorepId, n.parentScorepId);
      if n == root {
        var k: nat :| LastRoot(paths, k) && ids[p] == Ids(messages[k].scorepId, messages[k].parentScorepId);
        assert Sends(messages[k], paths[k]);
      } else {
        var k: nat :| Brings(paths, k, p) && ids[p] == Ids(messages[k].scorepId, messages[k].parentScorepId);
        assert Sends(messages[k], paths[k]);
      }
    }

    lemma IdsOfAll()
      ensures NodeIds().Keys == Have()
    {
    }

    lemma EmptyTree()
      requires Valid() && root == null
      ensures nodes == {} && Have() == {} && NodeIds() == map[]
    {
      ValidMeans();
    }

    /** A node is what its message says. */
    ghost predicate Carries(n: Rts, m: Message)
      reads n`callpathstring, n`scorepId, n`parentScorepId
    {
      && n.callpathstring == m.callpath && n.regionName == m.regionName
      && n.scorepId == m.scorepId && n.parentScorepId == m.parentScorepId
    }

    /** Message `k` is the first for the node's call path, and the node is what it says. */
    ghost predicate FirstFor(n: Rts, messages: seq<Message>, k: nat)
      reads n`callpathstring, n`scorepId, n`parentScorepId
    {
      && k < |messages| && Carries(n, messages[k])
      && forall j :: 0 <= j < k ==> messages[j].callpath != n.callpathstring
    }

    /** Message `k` is the last for a root, and the root holds its ids. */
    ghost predicate LastFor(n: Rts, messages: seq<Message>, k: nat)
      reads n`scorepId, n`parentScorepId
    {
      && k < |messages| && messages[k].parentScorepId == 0
      && n.scorepId == messages[k].scorepId && n.parentScorepId == messages[k].parentScorepId
      && forall j :: k < j < |messages| ==> messages[j].parentScorepId != 0
    }

    lemma NodeBrought(n: Rts, messages: seq<Message>, paths: seq<Path>, rootName: string)
      requires Valid() && n in nodes && n != root && AllSend(messages, paths)
      requires forall k :: 0 <= k < |paths| ==> paths[k] != []
      requires ParentsKnownFrom({}, paths) && OneRoot(paths, rootName)
      requires AllBrought(NodeIds(), messages, paths)
      ensures n.parentScorepId != 0 && exists k: nat :: FirstFor(n, messages, k)
    {
      var p, ids := n.path, NodeIds();
      assert NodeOk(n) && index[p] == n && ids[p] == Ids(n.scorepId, n.parentScorepId);
      var k: nat :| Brings(paths, k, p) && ids[p] == Ids(messages[k].scorepId, messages[k].parentScorepId);
      assert Sends(messages[k], p);
      BringsFirst(paths, k, p, rootName);
      forall j | 0 <= j < k
        ensures messages[j].callpath != n.callpathstring
      {
        assert Sends(messages[j], paths[j]);
        JoinInjective(paths[j], p);
      }
      assert FirstFor(n, messages, k);
    }

    lemma RootIsBrought(messages: seq<Message>, paths: seq<Path>)
      requires Valid() && root != null && AllSend(messages, paths)
      requires RootBrought(NodeIds(), root.path, messages, paths)
      ensures root.parentScorepId == 0 && exists k: nat :: LastFor(root, messages, k)
    {
      RootIndexed();
      var ids := NodeIds()[root.path];
      assert ids == Ids(root.scorepId, root.parentScorepId);
      var k: nat :| LastRoot(paths, k) && ids == Ids(messages[k].scorepId, messages[k].parentScorepId);
      assert Sends(messages[k], paths[k]);
      forall j | k < j < |messages|
        ensures messages[j].parentScorepId != 0
      {
        assert Sends(messages[j], paths[j]);
      }
      assert LastFor(root, messages, k);
    }

    /** The messages of several agents in any order of arrival rebuild exactly the union of what the
        agents send.  Every node is what the first message for its call path says, only that the root
        holds the ids of the last message for a root; and only the root has parent id 0. */
    method ReceiveAgents(messages: seq<Message>, ghost streams: seq<seq<Message>>,
                         ghost pathStreams: seq<seq<Path>>, ghost rootName: string)
      requires Valid() && root == null && Interleaving(streams, messages)
      requires AllTreeStreams(streams, pathStreams, rootName)
      modifies this, nodes
      ensures Valid() && Have() == AllMembers(pathStreams) && (messages != [] ==> root != null)
      ensures forall n :: n in nodes ==> (n.parentScorepId == 0 <==> n == root)
      ensures forall n :: n in nodes && n != root ==> exists k: nat :: FirstFor(n, messages, k)
      ensures root != null ==> exists k: nat :: LastFor(root, messages, k)
    {
      ghost var paths := ArrivingPaths(streams, messages, pathStreams);
      StreamsInAnyOrder(pathStreams, paths, rootName);
      hide *;
      ReceiveRun(messages, paths);
      WhatWasBrought(messages, paths, rootName);
    }

    lemma WhatWasBrought(messages: seq<Message>, paths: seq<Path>, rootName: string)
      requires Valid() && AllSend(messages, paths) && forall k :: 0 <= k < |paths| ==> paths[k] != []
      requires ParentsKnownFrom({}, paths) && OneRoot(paths, rootName) && AllBrought(NodeIds(), messages, paths)
      requires root != null ==> RootBrought(NodeIds(), root.path, messages, paths)
      ensures forall n :: n in nodes ==> (n.parentScorepId == 0 <==> n == root)
      ensures forall n :: n in nodes && n != root ==> exists k: nat :: FirstFor(n, messages, k)
      ensures root != null ==> exists k: nat :: LastFor(root, messages, k)
    {
      hide *;
      forall n | n in nodes && n != root
        ensures n.parentScorepId != 0 && exists k: nat :: FirstFor(n, messages, k)
      {
        NodeBrought(n, messages, paths, rootName);
      }
      if root != null {
        RootIsBrought(messages, paths);
      }
    }

    /** From the Score-P records to the frontend: every agent builds a tree from the buffers of its own
        processes and sends it, and the messages of all agents arrive in any order.  The frontend then
        has exactly the call paths that some buffer mentions, each with the two ids of a record with that
        call path; and its root is known by its parent id 0. */
    method TransmitCalltrees(runs: seq<seq<seq<Record>>>, ghost rootName: string)
      requires Valid() && root == null
      requires forall i :: 0 <= i < |runs| ==> RunOk(runs[i], rootName)
      modifies this, nodes
      ensures Valid() && forall p :: p in Have() <==> Mentioned(runs, rootName, p)
      ensures forall n :: n in nodes ==> (n.parentScorepId == 0 <==> n == root)
      ensures forall n :: n in nodes ==> OfARecord(runs, rootName, n.path, Ids(n.scorepId, n.parentScorepId))
    {
      hide Valid, RunOk, Mentioned, Interleaving, AllTreeStreams, HaveIds, RunIds, OfARecord, FirstFor, LastFor;
      EmptyTree();
      NoStreams(rootName);
      var streams: seq<seq<Message>> := [];
      ghost var pathStreams: seq<seq<Path>> := [];
      for i := 0 to |runs|
        invariant |streams| == i && AllTreeStreams(streams, pathStreams, rootName)
        invariant |pathStreams| == i && forall j :: 0 <= j < i ==> Elems(pathStreams[j]) == RunPaths(runs[j], rootName)
        invariant forall j :: 0 <= j < i ==> HaveIds(streams[j], pathStreams[j], RunIds(runs[j], rootName))
        invariant Valid() && root == null && nodes == {}
      {
        var messages;
        ghost var paths;
        messages, paths := SendRun(runs[i], rootName);
        OneMoreStream(streams, pathStreams, messages, paths, rootName);
        streams, pathStreams := streams + [messages], pathStreams + [paths];
      }
      var arriving := Arrive(streams);
      ReceiveAgents(arriving, streams, pathStreams, rootName);
      MentionedIs(runs, pathStreams, rootName);
      forall n | n in nodes
        ensures OfARecord(runs, rootName, n.path, Ids(n.scorepId, n.parentScorepId))
      {
        NodeOfARecord(n, arriving, streams, pathStreams, runs, rootName);
      }
    }

    lemma NodeOfARecord(n: Rts, messages: seq<Message>, streams: seq<seq<Message>>, pathStreams: seq<seq<Path>>,
                        runs: seq<seq<seq<Record>>>, rootName: string)
      requires Valid() && n in nodes && Have() == AllMembers(pathStreams)
      requires Interleaving(streams, messages) && AllTreeStreams(streams, pathStreams, rootName)
      requires |runs| == |streams| && forall i :: 0 <= i < |runs| ==> RunOk(runs[i], rootName)
      requires forall i :: 0 <= i < |runs| ==> HaveIds(streams[i], pathStreams[i], RunIds(runs[i], rootName))
      requires n != root ==> exists k: nat :: FirstFor(n, messages, k)
      requires n == root ==> exists k: nat :: LastFor(n, messages, k)
      ensures OfARecord(runs, rootName, n.path, Ids(n.scorepId, n.parentScorepId))
    {
      var k: nat :| if n == root then LastFor(n, messages, k) else FirstFor(n, messages, k);
      assert k < |messages|;
      assert Ids(n.scorepId, n.parentScorepId) == Ids(messages[k].scorepId, messages[k].parentScorepId);
      FromAStream(streams, messages, k);
      var i, j :| 0 <= i < |streams| && 0 <= j < |streams[i]| && streams[i][j] == messages[k];
      var p := pathStreams[i][j];
      assert TreeStream(streams[i], pathStreams[i], rootName) && Sends(streams[i][j], p);
      assert p == n.path by {
        SamePathAs(n, messages[k], p, pathStreams, i, j, rootName);
      }
      ReplayAllValues(runs[i], |runs[i]|, rootName, p);
    }

    /** The message that a node is made of tells its call path. */
    lemma SamePathAs(n: Rts, m: Message, p: Path, pathStreams: seq<seq<Path>>, i: nat, j: nat, rootName: string)
      requires Valid() && n in nodes && Have() == AllMembers(pathStreams) && Sends(m, p)
      requires i < |pathStreams| && j < |pathStreams[i]| && pathStreams[i][j] == p
      requires forall i :: 0 <= i < |pathStreams| ==> OneRoot(pathStreams[i], rootName)
      requires if n == root then m.parentScorepId == 0 else m.callpath == n.callpathstring
      ensures p == n.path
    {
      assert NodeOk(n) && n.path in AllMembers(pathStreams);
      if n == root {
        var i', j' :| 0 <= i' < |pathStreams| && 0 <= j' < |pathStreams[i']| && pathStreams[i'][j'] == n.path;
        assert OneRoot(pathStreams[i'], rootName) && OneRoot(pathStreams[i], rootName);
      } else {
        JoinInjective(p, n.path);
      }
    }
  }

  // ----- where the ids come from ------------------------------------------------------------

  /** The ids at every call path but the root's are those of the message that brought it. */
  ghost predicate AllBrought(ids: map<Path, Ids>, messages: seq<Message>, paths: seq<Path>)
    requires |messages| == |paths| && forall k :: 0 <= k < |paths| ==> paths[k] != []
  {
    forall p :: p in ids && !IsRootPath(p) ==>
      exists k: nat :: Brings(paths, k, p) && ids[p] == Ids(messages[k].scorepId, messages[k].parentScorepId)
  }

  /** Those at the root are those of the last message for a root. */
  ghost predicate RootBrought(ids: map<Path, Ids>, root: Path, messages: seq<Message>, paths: seq<Path>)
    requires |messages| == |paths|
  {
    root in ids &&
    exists k: nat :: LastRoot(paths, k) && ids[root] == Ids(messages[k].scorepId, messages[k].parentScorepId)
  }

  lemma NothingBrought(messages: seq<Message>, paths: seq<Path>)
    requires |messages| == |paths|
    ensures AllBrought(map[], messages[..0], paths[..0]) && ReceiveAll({}, paths[..0]) == {}
  {
  }

  lemma OneMoreBrought(was: map<Path, Ids>, now: map<Path, Ids>, root: Path, messages: seq<Message>, paths: seq<Path>,
                       i: nat)
    requires |messages| == |paths| && i < |paths| && forall k :: 0 <= k < |paths| ==> paths[k] != []
    requires was.Keys == ReceiveAll({}, paths[..i]) && now.Keys == Receive(was.Keys, paths[i]) && IsRootPath(root)
    requires AllBrought(was, messages[..i], paths[..i])
    requires IsRootPath(paths[i]) || RootBrought(was, root, messages[..i], paths[..i])
    requires var ids := Ids(messages[i].scorepId, messages[i].parentScorepId);
             now == if IsRootPath(paths[i]) then was[root := ids]
                    else if paths[i] in was || paths[i] !in now then was else was[paths[i] := ids]
    ensures now.Keys == ReceiveAll({}, paths[..i + 1]) && AllBrought(now, messages[..i + 1], paths[..i + 1])
    ensures RootBrought(now, root, messages[..i + 1], paths[..i + 1])
  {
    var before, after := paths[..i], paths[..i + 1];
    assert after == before + [paths[i]];
    ReceiveAllSnoc({}, before, paths[i]);
    forall p | p in now && !IsRootPath(p)
      ensures exists k: nat :: Brings(after, k, p) && now[p] == Ids(messages[k].scorepId, messages[k].parentScorepId)
    {
      if p in was {
        var k: nat :| Brings(before, k, p) && was[p] == Ids(messages[..i][k].scorepId, messages[..i][k].parentScorepId);
        assert after[..k] == before[..k] && after[..k + 1] == before[..k + 1];
        assert Brings(after, k, p);
      } else {
        assert after[..i] == before && after[..i + 1] == after;
        assert Brings(after, i, p);
      }
    }
    if IsRootPath(paths[i]) {
      assert LastRoot(after, i);
    } else {
      var k: nat :| LastRoot(before, k) && was[root] == Ids(messages[..i][k].scorepId, messages[..i][k].parentScorepId);
      assert LastRoot(after, k);
    }
  }

  // ----- what agents send -------------------------------------------------------------------

  function MessageOf(n: Rts): Message
    reads n`callpathstring, n`scorepId, n`parentScorepId
  {
    Message(n.callpathstring, n.regionName, n.scorepId, n.parentScorepId)
  }

  /** What an agent sends for a settled node is what the frontend expects. */
  lemma SettledNodeSends(a: AgentCallTree, n: Rts)
    requires a.Valid() && a.RootFlagged() && n in a.nodes && a.Settled(n) && AllSlashFree(n.path)
    ensures Sends(MessageOf(n), n.path)
  {
    assert a.NodeOk(n);
    if n != a.root {
      assert a.NodeOk(n.parent);
    }
  }

  /** The messages name the call paths one by one. */
  ghost predicate AllSend(messages: seq<Message>, paths: seq<Path>) {
    |messages| == |paths| && forall k :: 0 <= k < |paths| ==> Sends(messages[k], paths[k])
  }

  /** What one agent sends: each of its call paths once, parents first, below the common root. */
  ghost predicate TreeStream(messages: seq<Message>, paths: seq<Path>, rootName: string) {
    AllSend(messages, paths) && ParentsFirst(paths) && OneRoot(paths, rootName)
  }

  ghost predicate AllTreeStreams(streams: seq<seq<Message>>, pathStreams: seq<seq<Path>>, rootName: string) {
    |streams| == |pathStreams| && forall i :: 0 <= i < |streams| ==> TreeStream(streams[i], pathStreams[i], rootName)
  }

  /** The messages bring the ids that the call paths have in the agent's tree. */
  ghost predicate HaveIds(messages: seq<Message>, paths: seq<Path>, ids: map<Path, Ids>) {
    && |messages| == |paths|
    && forall k :: 0 <= k < |paths| ==>
         paths[k] in ids && ids[paths[k]] == Ids(messages[k].scorepId, messages[k].parentScorepId)
  }

  /** Sends the whole tree, node by node, and forgets what there is to send. */
  method SerializeCalltree(a: AgentCallTree) returns (messages: seq<Message>)
    requires a.Valid() && a.RootFlagged() && a.root != null && a.SettledSubtree(a.root) && a.NamesSlashFree()
    requires a.rtsToSerialize == a.created
    modifies a`rtsToSerialize
    ensures a.Valid() && a.rtsToSerialize == []
    ensures TreeStream(messages, a.CreationPaths(), a.root.regionName)
    ensures Elems(a.CreationPaths()) == a.index.Keys && HaveIds(messages, a.CreationPaths(), a.PathIds())
  {
    hide *;
    messages := [];
    for i := 0 to |a.rtsToSerialize|
      invariant |messages| == i && forall k :: 0 <= k < i ==> messages[k] == MessageOf(a.created[k])
    {
      messages := messages + [MessageOf(a.rtsToSerialize[i])];
    }
    CreatedSends(a, messages);
    CreatedHasIds(a, messages);
    a.ClearRtsToSerialize();
  }

  lemma CreatedHasIds(a: AgentCallTree, messages: seq<Message>)
    requires a.Valid()
    requires |messages| == |a.created| && forall k :: 0 <= k < |messages| ==> messages[k] == MessageOf(a.created[k])
    ensures HaveIds(messages, a.CreationPaths(), a.PathIds())
  {
    forall k | 0 <= k < |messages|
      ensures a.CreationPaths()[k] in a.PathIds()
      ensures a.PathIds()[a.CreationPaths()[k]] == Ids(messages[k].scorepId, messages[k].parentScorepId)
    {
      var n := a.created[k];
      assert n in a.nodes && n.path in a.index && a.index[n.path] == n;
    }
  }

  lemma CreatedSends(a: AgentCallTree, messages: seq<Message>)
    requires a.Valid() && a.RootFlagged() && a.root != null && a.SettledSubtree(a.root) && a.NamesSlashFree()
    requires |messages| == |a.created| && forall k :: 0 <= k < |messages| ==> messages[k] == MessageOf(a.created[k])
    ensures TreeStream(messages, a.CreationPaths(), a.root.regionName)
    ensures Elems(a.CreationPaths()) == a.index.Keys
  {
    hide Sends, ParentsFirst, AllSlashFree, a.Numbered, a.NodeOk;
    a.CreationOrder();
    a.ShapeMeans();
    var ps := a.CreationPaths();
    forall k | 0 <= k < |ps|
      ensures Sends(messages[k], ps[k])
      ensures IsRootPath(ps[k]) ==> ps[k] == [a.root.regionName]
    {
      var n := a.created[k];
      assert n in a.nodes && a.Settled(n) && n.path in a.index;
      SettledNodeSends(a, n);
      assert a.root.path <= n.path;
    }
  }

  /** The records of one agent's processes: they can be merged, and their names stay apart in strings. */
  ghost predicate RunOk(run: seq<seq<Record>>, rootName: string) {
    && run != [] && AllWellFormed(run) && run[0] != [] && run[0][0].name == rootName
    && Consistent(run, rootName) && !IsParameterName(rootName)
    && forall p :: p in AllPaths(run, |run|, rootName) ==> AllSlashFree(p)
  }

  ghost function RunPaths(run: seq<seq<Record>>, rootName: string): set<Path>
    requires RunOk(run, rootName)
  {
    AllPaths(run, |run|, rootName)
  }

  /** The ids an agent's tree holds after all its buffers. */
  ghost function RunIds(run: seq<seq<Record>>, rootName: string): map<Path, Ids>
    requires RunOk(run, rootName)
  {
    ReplayAll(run, |run|, rootName)
  }

  /** The ids are both those of one record of some agent that has this call path. */
  ghost predicate OfARecord(runs: seq<seq<seq<Record>>>, rootName: string, p: Path, ids: Ids)
    requires forall i :: 0 <= i < |runs| ==> RunOk(runs[i], rootName)
  {
    exists i :: 0 <= i < |runs| && RunOk(runs[i], rootName) && FromRecord(runs[i], |runs[i]|, rootName, p, ids)
  }

  /** Some buffer of some agent mentions the call path. */
  ghost predicate Mentioned(runs: seq<seq<seq<Record>>>, rootName: string, p: Path)
    requires forall i :: 0 <= i < |runs| ==> RunOk(runs[i], rootName)
  {
    exists i :: 0 <= i < |runs| && p in RunPaths(runs[i], rootName)
  }

  lemma RunOkMeans(run: seq<seq<Record>>, rootName: string)
    requires RunOk(run, rootName)
    ensures run != [] && AllWellFormed(run) && run[0] != [] && run[0][0].name == rootName
    ensures Consistent(run, rootName) && !IsParameterName(rootName)
    ensures RunPaths(run, rootName) == AllPaths(run, |run|, rootName)
    ensures RunIds(run, rootName) == ReplayAll(run, |run|, rootName)
  {
  }

  lemma NamesApart(a: AgentCallTree, run: seq<seq<Record>>, rootName: string)
    requires RunOk(run, rootName) && a.index.Keys == RunPaths(run, rootName) && a.Valid()
    ensures a.NamesSlashFree()
  {
  }

  /** One agent: merges the buffers of its processes and sends the tree. */
  method SendRun(run: seq<seq<Record>>, ghost rootName: string) returns (messages: seq<Message>, ghost paths: seq<Path>)
    requires RunOk(run, rootName)
    ensures TreeStream(messages, paths, rootName) && Elems(paths) == RunPaths(run, rootName)
    ensures HaveIds(messages, paths, RunIds(run, rootName))
  {
    hide *;
    RunOkMeans(run, rootName);
    var a := new AgentCallTree();
    a.ConstructFrom(run);
    NamesApart(a, run, rootName);
    messages := SerializeCalltree(a);
    paths := a.CreationPaths();
  }

  lemma NoStreams(rootName: string)
    ensures AllTreeStreams([], [], rootName)
  {
  }

  lemma OneMoreStream(streams: seq<seq<Message>>, pathStreams: seq<seq<Path>>, messages: seq<Message>, paths: seq<Path>,
                      rootName: string)
    requires AllTreeStreams(streams, pathStreams, rootName) && TreeStream(messages, paths, rootName)
    ensures AllTreeStreams(streams + [messages], pathStreams + [paths], rootName)
  {
  }

  lemma MentionedIs(runs: seq<seq<seq<Record>>>, pathStreams: seq<seq<Path>>, rootName: string)
    requires forall i :: 0 <= i < |runs| ==> RunOk(runs[i], rootName)
    requires |pathStreams| == |runs|
    requires forall i :: 0 <= i < |runs| ==> Elems(pathStreams[i]) == RunPaths(runs[i], rootName)
    ensures forall p :: p in AllMembers(pathStreams) <==> Mentioned(runs, rootName, p)
  {
    forall p | p in AllMembers(pathStreams)
      ensures Mentioned(runs, rootName, p)
    {
      var i :| 0 <= i < |pathStreams| && p in pathStreams[i];
      assert p in Elems(pathStreams[i]);
    }
    forall p | Mentioned(runs, rootName, p)
      ensures p in AllMembers(pathStreams)
    {
      var i :| 0 <= i < |runs| && p in RunPaths(runs[i], rootName);
      assert p in Elems(pathStreams[i]);
    }
  }

  // ----- how messages arrive ----------------------------------------------------------------

  function Total<T>(streams: seq<seq<T>>): nat {
    if streams == [] then 0 else |streams[0]| + Total(streams[1..])
  }

  lemma {:induction false} TotalTake<T>(streams: seq<seq<T>>, i: nat)
    requires i < |streams| && streams[i] != []
    ensures Total(streams[i := streams[i][1..]]) == Total(streams) - 1
  {
    var rest := streams[i := streams[i][1..]];
    if i == 0 {
      assert rest[1..] == streams[1..];
    } else {
      TotalTake(streams[1..], i - 1);
      assert rest[1..] == streams[1..][i - 1 := streams[1..][i - 1][1..]];
    }
  }

  /** The messages of all streams arrive in any order that keeps each stream's own. */
  method Arrive(streams: seq<seq<Message>>) returns (messages: seq<Message>)
    ensures Interleaving(streams, messages)
    decreases Total(streams)
  {
    if i :| 0 <= i < |streams| && streams[i] != [] {
      TotalTake(streams, i);
      var rest := Arrive(streams[i := streams[i][1..]]);
      messages := [streams[i][0]] + rest;
      assert messages[1..] == rest;
      assert TakesFrom(streams, messages, i);
    } else {
      messages := [];
    }
  }

  /** The call paths of messages in order of arrival: an interleaving of the agents' call paths. */
  lemma {:induction false} ArrivingPaths(streams: seq<seq<Message>>, messages: seq<Message>,
                                         pathStreams: seq<seq<Path>>)
    returns (paths: seq<Path>)
    requires Interleaving(streams, messages) && |streams| == |pathStreams|
    requires forall i :: 0 <= i < |streams| ==> AllSend(streams[i], pathStreams[i])
    ensures Interleaving(pathStreams, paths) && AllSend(messages, paths)
    decreases |messages|
  {
    if messages == [] {
      paths := [];
    } else {
      var i :| 0 <= i < |streams| && TakesFrom(streams, messages, i);
      var rest := ArrivingPaths(streams[i := streams[i][1..]], messages[1..], pathStreams[i := pathStreams[i][1..]]);
      paths := [pathStreams[i][0]] + rest;
      assert paths[1..] == rest;
      assert TakesFrom(pathStreams, paths, i);
      assert AllSend(streams[i], pathStreams[i]);
    }
  }

  lemma StreamsInAnyOrder(pathStreams: seq<seq<Path>>, paths: seq<Path>, rootName: string)
    requires forall i :: 0 <= i < |pathStreams| ==> ParentsFirst(pathStreams[i]) && OneRoot(pathStreams[i], rootName)
    requires Interleaving(pathStreams, paths)
    ensures forall k :: 0 <= k < |paths| ==> paths[k] != []
    ensures paths != [] ==> IsRootPath(paths[0])
    ensures ReceiveAll({}, paths) == AllMembers(pathStreams)
    ensures ParentsKnownFrom({}, paths) && OneRoot(paths, rootName)
  {
    hide *;
    AnyOrderGivesTheUnion(pathStreams, paths, rootName);
    FirstIsRoot(pathStreams, paths);
  }

  lemma FirstIsRoot(streams: seq<seq<Path>>, merged: seq<Path>)
    requires Interleaving(streams, merged)
    requires forall i :: 0 <= i < |streams| ==> ParentsFirst(streams[i])
    ensures merged != [] ==> IsRootPath(merged[0])
  {
    if merged != [] {
      var i :| 0 <= i < |streams| && TakesFrom(streams, merged, i);
      assert ParentsFirst(streams[i]);
    }
  }
}
