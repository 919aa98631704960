/** Call-tree nodes on their way to the frontend: each agent sends its nodes in creation order, and
    the messages of several agents arrive in some interleaving. */
module NodeStreams {
  import opened CallPaths
  import opened Sequences

  ghost predicate IsRootPath(p: Path) {
    |p| == 1
  }

  /** Every path in `ps` is a root, or its parent is in `seen` or earlier in `ps`. */
  ghost predicate ParentsKnownFrom(seen: set<Path>, ps: seq<Path>)
    decreases |ps|
  {
    ps == [] ||
    (&& ps[0] != []
     && (IsRootPath(ps[0]) || Init(ps[0]) in seen)
     && ParentsKnownFrom(seen + {ps[0]}, ps[1..]))
  }

  /** All roots are called `rootName`. */
  ghost predicate OneRoot(ps: seq<Path>, rootName: string) {
    forall k :: 0 <= k < |ps| && IsRootPath(ps[k]) ==> ps[k] == [rootName]
  }

  /** What the frontend does with the arrival of a node at `p`, seen as the set of paths it has:
      the first root makes the tree, later roots change nothing, and another node is kept exactly
      if its parent is there. */
  ghost function Receive(have: set<Path>, p: Path): set<Path>
    requires p != []
  {
    if IsRootPath(p) then (if have == {} then {p} else have)
    else if Init(p) in have then have + {p}
    else have
  }

  ghost function ReceiveAll(have: set<Path>, ps: seq<Path>): set<Path>
    requires forall k :: 0 <= k < |ps| ==> ps[k] != []
    decreases |ps|
  {
    if ps == [] then have else ReceiveAll(Receive(have, ps[0]), ps[1..])
  }

  lemma {:induction false} ReceiveAllSnoc(have: set<Path>, ps: seq<Path>, p: Path)
    requires p != [] && forall k :: 0 <= k < |ps| ==> ps[k] != []
    ensures ReceiveAll(have, ps + [p]) == Receive(ReceiveAll(have, ps), p)
    decreases |ps|
  {
    hide Receive;
    if ps == [] {
      assert ps + [p] == [p] && [p][1..] == [];
    } else {
      ReceiveAllSnoc(Receive(have, ps[0]), ps[1..], p);
      assert (ps + [p])[0] == ps[0] && (ps + [p])[1..] == ps[1..] + [p];
    }
  }

  /** Node `k` to arrive is the one that brings call path `p` into the tree. */
  ghost predicate Brings(ps: seq<Path>, k: nat, p: Path)
    requires forall j :: 0 <= j < |ps| ==> ps[j] != []
  {
    && k < |ps| && ps[k] == p
    && p !in ReceiveAll({}, ps[..k]) && p in ReceiveAll({}, ps[..k + 1])
  }

  /** Root `k` to arrive is the last one. */
  ghost predicate LastRoot(ps: seq<Path>, k: nat) {
    k < |ps| && IsRootPath(ps[k]) && forall j :: k < j < |ps| ==> !IsRootPath(ps[j])
  }

  lemma ElemsCons(ps: seq<Path>)
    requires ps != []
    ensures Elems(ps) == {ps[0]} + Elems(ps[1..])
  {
    assert ps == [ps[0]] + ps[1..];
  }

  lemma {:induction false} KnownMonotone(seen: set<Path>, more: set<Path>, ps: seq<Path>)
    requires seen <= more && ParentsKnownFrom(seen, ps)
    ensures ParentsKnownFrom(more, ps)
    decreases |ps|
  {
    if ps != [] {
      KnownMonotone(seen + {ps[0]}, more + {ps[0]}, ps[1..]);
    }
  }

  lemma {:induction false} KnownNonEmptyPaths(seen: set<Path>, ps: seq<Path>)
    requires ParentsKnownFrom(seen, ps)
    ensures forall k :: 0 <= k < |ps| ==> ps[k] != []
    decreases |ps|
  {
    if ps != [] {
      KnownNonEmptyPaths(seen + {ps[0]}, ps[1..]);
      forall k | 0 <= k < |ps|
        ensures ps[k] != []
      {
        assert k > 0 ==> ps[k] == ps[1..][k - 1];
      }
    }
  }

  /** When parents come first and there is one root, nothing is dropped. */
  lemma {:induction false} NothingDropped(have: set<Path>, ps: seq<Path>, rootName: string)
    requires ParentsKnownFrom(have, ps) && OneRoot(ps, rootName)
    requires have == {} || [rootName] in have
    requires forall k :: 0 <= k < |ps| ==> ps[k] != []
    ensures ReceiveAll(have, ps) == have + Elems(ps)
    decreases |ps|
  {
    if ps != [] {
      var next := Receive(have, ps[0]);
      assert next == have + {ps[0]} && [rootName] in next;
      assert OneRoot(ps[1..], rootName);
      NothingDropped(next, ps[1..], rootName);
      ElemsCons(ps);
    }
  }

  lemma {:induction false} NothingInvented(have: set<Path>, ps: seq<Path>)
    requires forall k :: 0 <= k < |ps| ==> ps[k] != []
    ensures have <= ReceiveAll(have, ps) <= have + Elems(ps)
    decreases |ps|
  {
    if ps != [] {
      NothingInvented(Receive(have, ps[0]), ps[1..]);
      ElemsCons(ps);
    }
  }

  /** Among distinct nodes with one root, every node is kept exactly if each arrives after its
      parent: a node that arrives too early is dropped for good. */
  lemma {:induction false} AllKeptIff(have: set<Path>, ps: seq<Path>, rootName: string)
    requires forall k :: 0 <= k < |ps| ==> ps[k] != [] && ps[k] !in have
    requires forall j, k :: 0 <= j < k < |ps| ==> ps[j] != ps[k]
    requires OneRoot(ps, rootName) && (have == {} || [rootName] in have)
    ensures ReceiveAll(have, ps) == have + Elems(ps) <==> ParentsKnownFrom(have, ps)
    decreases |ps|
  {
    if ps != [] {
      var rest := ps[1..];
      ElemsCons(ps);
      assert OneRoot(rest, rootName);
      assert forall k :: 0 <= k < |rest| ==> rest[k] == ps[k + 1];
      if IsRootPath(ps[0]) || Init(ps[0]) in have {
        assert Receive(have, ps[0]) == have + {ps[0]};
        AllKeptIff(have + {ps[0]}, rest, rootName);
      } else {
        NothingInvented(have, rest);
        assert ps[0] !in Elems(rest);
      }
    }
  }

  /** `merged` is one of the orders in which the messages of the streams can arrive. */
  ghost predicate Interleaving<T>(streams: seq<seq<T>>, merged: seq<T>)
    decreases |merged|
  {
    if merged == [] then forall i :: 0 <= i < |streams| ==> streams[i] == []
    else exists i :: 0 <= i < |streams| && TakesFrom(streams, merged, i)
  }

  ghost predicate TakesFrom<T>(streams: seq<seq<T>>, merged: seq<T>, i: nat)
    requires merged != [] && i < |streams|
    decreases |merged|, 0
  {
    streams[i] != [] && streams[i][0] == merged[0] && Interleaving(streams[i := streams[i][1..]], merged[1..])
  }

  ghost function AllMembers(streams: seq<seq<Path>>): set<Path> {
    set i, p | 0 <= i < |streams| && p in streams[i] :: p
  }

  lemma AllMembersTake(streams: seq<seq<Path>>, i: nat)
    requires i < |streams| && streams[i] != []
    ensures AllMembers(streams) == {streams[i][0]} + AllMembers(streams[i := streams[i][1..]])
  {
    var rest := streams[i := streams[i][1..]];
    var h := streams[i][0];
    assert streams[i] == [h] + rest[i];
    forall p | p in AllMembers(streams)
      ensures p in {h} + AllMembers(rest)
    {
      var j :| 0 <= j < |streams| && p in streams[j];
      assert j == i ==> p == h || p in rest[i];
      assert j != i ==> p in rest[j];
    }
    forall p | p in {h} + AllMembers(rest)
      ensures p in AllMembers(streams)
    {
      if p == h {
        assert p in streams[i];
      } else {
        var j :| 0 <= j < |rest| && p in rest[j];
        assert p in streams[j];
      }
    }
  }

  lemma {:induction false} KnownPrefix(seen: set<Path>, ps: seq<Path>, k: nat)
    requires ParentsKnownFrom(seen, ps) && k <= |ps|
    ensures ParentsKnownFrom(seen, ps[..k])
    decreases |ps|
  {
    if k > 0 {
      KnownPrefix(seen + {ps[0]}, ps[1..], k - 1);
      assert ps[..k][0] == ps[0] && ps[..k][1..] == ps[1..][..k - 1];
    }
  }

  /** When parents come first, the node that brings a call path is the first one to name it. */
  lemma BringsFirst(ps: seq<Path>, k: nat, p: Path, rootName: string)
    requires ParentsKnownFrom({}, ps) && OneRoot(ps, rootName) && forall j :: 0 <= j < |ps| ==> ps[j] != []
    requires Brings(ps, k, p)
    ensures forall j :: 0 <= j < k ==> ps[j] != p
  {
    KnownPrefix({}, ps, k);
    NothingDropped({}, ps[..k], rootName);
    forall j | 0 <= j < k
      ensures ps[j] != p
    {
      assert ps[..k][j] == ps[j];
    }
  }

  /** Whatever arrives comes from one of the streams. */
  lemma {:induction false} FromAStream<T>(streams: seq<seq<T>>, merged: seq<T>, k: nat)
    requires Interleaving(streams, merged) && k < |merged|
    ensures exists i, j :: 0 <= i < |streams| && 0 <= j < |streams[i]| && streams[i][j] == merged[k]
    decreases |merged|
  {
    var i :| 0 <= i < |streams| && TakesFrom(streams, merged, i);
    if k == 0 {
      assert streams[i][0] == merged[0];
    } else {
      var rest := streams[i := streams[i][1..]];
      FromAStream(rest, merged[1..], k - 1);
      var i', j :| 0 <= i' < |rest| && 0 <= j < |rest[i']| && rest[i'][j] == merged[1..][k - 1];
      if i' == i {
        assert streams[i][j + 1] == merged[k];
      } else {
        assert streams[i'][j] == merged[k];
      }
    }
  }

  /** Interleaving keeps parents before children and loses no path. */
  lemma {:induction false} InterleavingKeepsOrder(seen: set<Path>, streams: seq<seq<Path>>, merged: seq<Path>,
                                                  rootName: string)
    requires Interleaving(streams, merged)
    requires forall i :: 0 <= i < |streams| ==> ParentsKnownFrom(seen, streams[i]) && OneRoot(streams[i], rootName)
    ensures ParentsKnownFrom(seen, merged) && OneRoot(merged, rootName)
    ensures Elems(merged) == AllMembers(streams)
    decreases |merged|
  {
    if merged != [] {
      var i :| 0 <= i < |streams| && TakesFrom(streams, merged, i);
      var h, rest := merged[0], streams[i := streams[i][1..]];
      forall j | 0 <= j < |rest|
        ensures ParentsKnownFrom(seen + {h}, rest[j]) && OneRoot(rest[j], rootName)
      {
        if j == i {
          assert forall k :: 0 <= k < |rest[i]| ==> rest[i][k] == streams[i][k + 1];
        } else {
          KnownMonotone(seen, seen + {h}, streams[j]);
        }
      }
      InterleavingKeepsOrder(seen + {h}, rest, merged[1..], rootName);
      forall k | 0 <= k < |merged| && IsRootPath(merged[k])
        ensures merged[k] == [rootName]
      {
        assert k == 0 ==> merged[k] == streams[i][0];
        assert k > 0 ==> merged[k] == merged[1..][k - 1];
      }
      ElemsCons(merged);
      AllMembersTake(streams, i);
    }
  }

  /** Confluence: whatever the order of arrival, the frontend ends up with the union of the agents'
      call paths, none dropped. */
  lemma AnyOrderGivesTheUnion(streams: seq<seq<Path>>, merged: seq<Path>, rootName: string)
    requires Interleaving(streams, merged)
    requires forall i :: 0 <= i < |streams| ==> ParentsFirst(streams[i]) && OneRoot(streams[i], rootName)
    ensures forall k :: 0 <= k < |merged| ==> merged[k] != []
    ensures ReceiveAll({}, merged) == AllMembers(streams)
    ensures ParentsKnownFrom({}, merged) && OneRoot(merged, rootName)
  {
    forall i | 0 <= i < |streams|
      ensures ParentsKnownFrom({}, streams[i])
    {
      ParentsFirstIsKnown(streams[i], 0);
      assert streams[i][..0] == [] && streams[i][0..] == streams[i];
      assert Elems<Path>([]) == {};
    }
    InterleavingKeepsOrder({}, streams, merged, rootName);
    KnownNonEmptyPaths({}, merged);
    NothingDropped({}, merged, rootName);
  }

  lemma ElemsSnoc(ps: seq<Path>, k: nat)
    requires k < |ps|
    ensures Elems(ps[..k + 1]) == Elems(ps[..k]) + {ps[k]}
  {
    assert ps[..k + 1] == ps[..k] + [ps[k]];
  }

  lemma ParentBefore(ps: seq<Path>, k: nat)
    requires ParentsFirst(ps) && k < |ps|
    ensures ps[k] != [] && (IsRootPath(ps[k]) || Init(ps[k]) in Elems(ps[..k]))
  {
    if |ps[k]| > 1 {
      var j :| 0 <= j < k && ps[j] == Init(ps[k]);
      assert ps[..k][j] == Init(ps[k]);
    }
  }

  lemma {:induction false} ParentsFirstIsKnown(ps: seq<Path>, k: nat)
    requires ParentsFirst(ps) && k <= |ps|
    ensures ParentsKnownFrom(Elems(ps[..k]), ps[k..])
    decreases |ps| - k
  {
    if k < |ps| {
      ParentBefore(ps, k);
      ElemsSnoc(ps, k);
      assert ps[k..][0] == ps[k] && ps[k..][1..] == ps[k + 1..];
      hide ParentsFirst, Elems;
      ParentsFirstIsKnown(ps, k + 1);
    }
  }
}
