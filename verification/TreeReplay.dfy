/** Replaying the Score-P records of a buffer on the ids the tree holds: the value-level account of
    what merging a buffer does, and the condition under which it is right. */
module TreeReplay {
  import opened CallPaths
  import opened Sequences
  import opened ScorepRecords

  /** What a child lookup compares: the Score-P id or the name. */
  datatype Label = Label(id: int, name: string)

  predicate Matches(a: Label, b: Label) {
    a.id == b.id || a.name == b.name
  }

  /** The position of the first label that `l` matches, or the number of labels. */
  function FirstMatch(labels: seq<Label>, l: Label): (k: nat)
    ensures k <= |labels|
    ensures k < |labels| ==> Matches(labels[k], l)
    ensures forall j :: 0 <= j < k ==> !Matches(labels[j], l)
  {
    if labels == [] then 0
    else if Matches(labels[0], l) then 0
    else 1 + FirstMatch(labels[1..], l)
  }

  /** The position of the first label with `l`'s name, or the number of labels. */
  function FirstNamed(labels: seq<Label>, name: string): (k: nat)
    ensures k <= |labels|
    ensures k < |labels| ==> labels[k].name == name
    ensures forall j :: 0 <= j < k ==> labels[j].name != name
  {
    if labels == [] then 0
    else if labels[0].name == name then 0
    else 1 + FirstNamed(labels[1..], name)
  }

  /** The lookup finds the child of the same name, or none if there is none, exactly when no
      earlier child still carries the new record's id from another buffer. */
  lemma LookupByNameIff(labels: seq<Label>, l: Label)
    ensures FirstMatch(labels, l) == FirstNamed(labels, l.name)
       <==> forall j :: 0 <= j < FirstNamed(labels, l.name) ==> labels[j].id != l.id
  {
    var m, n := FirstMatch(labels, l), FirstNamed(labels, l.name);
    if m < n {
      assert labels[m].id == l.id;
    } else if n < m {
      assert Matches(labels[n], l);
      assert false;
    }
  }

  /** The two ids that a record brings, and that its node takes over. */
  datatype Ids = Ids(scorepId: int, parentScorepId: int)

  function IdsOf(record: Record): Ids {
    Ids(record.scorepId, record.parentScorepId)
  }

  lemma IdsAre(record: Record)
    ensures IdsOf(record) == Ids(record.scorepId, record.parentScorepId)
  {
  }

  /** No call path with the same parent as `p` holds `id` under a different name. */
  ghost predicate NoStaleId(ids: map<Path, Ids>, id: int, p: Path)
    requires p != []
  {
    forall q :: q in ids && q != [] && ids[q].scorepId == id && Init(q) == Init(p) ==> q == p
  }

  ghost predicate NoStaleIds(ids: map<Path, Ids>, buf: seq<Record>, lo: nat, rootName: string)
    requires ParentsKnown(buf)
  {
    forall i {:trigger RecordPath(buf, i, rootName)} :: lo <= i < |buf| ==>
      NoStaleId(ids, buf[i].scorepId, RecordPath(buf, i, rootName))
  }

  /** The nodes on the path to record `c` are in the tree and hold the ids of their records. */
  ghost predicate Tracks(ids: map<Path, Ids>, buf: seq<Record>, c: nat, rootName: string)
    requires ParentsKnown(buf) && c < |buf|
  {
    forall a {:trigger OnPath(buf, a, c)} :: 0 <= a <= c && OnPath(buf, a, c) ==>
      var p := RecordPath(buf, a, rootName); p in ids && ids[p] == IdsOf(buf[a])
  }

  /** The ids after the records from `lo` on were merged, one after the other. */
  ghost function Replay(ids: map<Path, Ids>, buf: seq<Record>, lo: nat, rootName: string): (r: map<Path, Ids>)
    requires ParentsKnown(buf) && lo <= |buf|
    ensures r.Keys == ids.Keys + PathsFrom(buf, lo, rootName)
    decreases |buf| - lo
  {
    if lo == |buf| then ids
    else
      PathsFromStep(buf, lo, rootName);
      Replay(ids[RecordPath(buf, lo, rootName) := IdsOf(buf[lo])], buf, lo + 1, rootName)
  }

  lemma TracksNext(ids: map<Path, Ids>, buf: seq<Record>, c: nat, i: nat, rootName: string)
    requires WellFormed(buf) && c < i < |buf| && Tracks(ids, buf, c, rootName)
    requires IsRoot(buf, i) || ParentIndex(buf, i) == c
    ensures Tracks(ids[RecordPath(buf, i, rootName) := IdsOf(buf[i])], buf, i, rootName)
  {
    forall a | 0 <= a <= i && OnPath(buf, a, i) && a != i
      ensures a <= c && OnPath(buf, a, c) && RecordPath(buf, a, rootName) != RecordPath(buf, i, rootName)
    {
      assert OnPath(buf, a, c);
      AncestorPath(buf, a, i, rootName);
      AncestorPath(buf, a, c, rootName);
    }
  }

  lemma TracksParent(ids: map<Path, Ids>, buf: seq<Record>, c: nat, rootName: string)
    requires ParentsKnown(buf) && c < |buf| && Tracks(ids, buf, c, rootName) && !IsRoot(buf, c)
    ensures Tracks(ids, buf, ParentIndex(buf, c), rootName)
  {
    forall a | 0 <= a <= ParentIndex(buf, c) && OnPath(buf, a, ParentIndex(buf, c))
      ensures OnPath(buf, a, c)
    {
    }
  }

  lemma NoStaleIdsNext(ids: map<Path, Ids>, buf: seq<Record>, i: nat, rootName: string)
    requires WellFormed(buf) && i < |buf| && NoStaleIds(ids, buf, i, rootName)
    ensures NoStaleIds(ids[RecordPath(buf, i, rootName) := IdsOf(buf[i])], buf, i + 1, rootName)
  {
    forall j | i + 1 <= j < |buf|
      ensures NoStaleId(ids[RecordPath(buf, i, rootName) := IdsOf(buf[i])], buf[j].scorepId,
                        RecordPath(buf, j, rootName))
    {
      assert NoStaleId(ids, buf[j].scorepId, RecordPath(buf, j, rootName));
      assert buf[j].scorepId != buf[i].scorepId;
    }
  }

  lemma IsRootMeans(buf: seq<Record>, i: nat)
    requires i < |buf|
    ensures IsRoot(buf, i) <==> buf[i].parentScorepId == 0
  {
  }

  lemma ReplayEnds(ids: map<Path, Ids>, buf: seq<Record>, rootName: string)
    requires ParentsKnown(buf)
    ensures Replay(ids, buf, |buf|, rootName) == ids
  {
  }

  lemma ReplayStep(ids: map<Path, Ids>, buf: seq<Record>, lo: nat, rootName: string)
    requires ParentsKnown(buf) && lo < |buf|
    ensures Replay(ids, buf, lo, rootName)
         == Replay(ids[RecordPath(buf, lo, rootName) := IdsOf(buf[lo])], buf, lo + 1, rootName)
  {
  }

  // ----- several processes ------------------------------------------------------------------

  /** Record `i` of buffer `a` and record `j` of buffer `b` do not use one id for two different
      nodes below the same parent. */
  ghost predicate Agree(buffers: seq<seq<Record>>, a: nat, i: nat, b: nat, j: nat, rootName: string)
    requires a < |buffers| && i < |buffers[a]| && b < |buffers| && j < |buffers[b]|
    requires ParentsKnown(buffers[a]) && ParentsKnown(buffers[b])
  {
    var p, q := RecordPath(buffers[a], i, rootName), RecordPath(buffers[b], j, rootName);
    buffers[a][i].scorepId == buffers[b][j].scorepId && Init(p) == Init(q) ==> p == q
  }

  ghost predicate AllWellFormed(buffers: seq<seq<Record>>) {
    forall k :: 0 <= k < |buffers| ==> WellFormed(buffers[k])
  }

  /** Well-formed buffers that use no Score-P id for two different children of one node. */
  ghost predicate Consistent(buffers: seq<seq<Record>>, rootName: string) {
    && AllWellFormed(buffers)
    && forall a, i, b, j {:trigger Agree(buffers, a, i, b, j, rootName)} ::
         0 <= a < b < |buffers| && 0 <= i < |buffers[a]| && 0 <= j < |buffers[b]| ==>
           Agree(buffers, a, i, b, j, rootName)
  }

  /** The ids after the first `k` buffers. */
  ghost function ReplayAll(buffers: seq<seq<Record>>, k: nat, rootName: string): map<Path, Ids>
    requires AllWellFormed(buffers) && k <= |buffers|
  {
    if k == 0 then map[] else Replay(ReplayAll(buffers, k - 1, rootName), buffers[k - 1], 0, rootName)
  }

  lemma ReplayAllStep(buffers: seq<seq<Record>>, k: nat, rootName: string)
    requires AllWellFormed(buffers) && k < |buffers|
    ensures WellFormed(buffers[k]) && ParentsKnown(buffers[k])
    ensures ReplayAll(buffers, 0, rootName) == map[]
    ensures ReplayAll(buffers, k + 1, rootName) == Replay(ReplayAll(buffers, k, rootName), buffers[k], 0, rootName)
  {
  }

  /** The call paths mentioned by the first `k` buffers. */
  ghost function AllPaths(buffers: seq<seq<Record>>, k: nat, rootName: string): set<Path>
    requires AllWellFormed(buffers) && k <= |buffers|
  {
    set a, i | 0 <= a < k && 0 <= i < |buffers[a]| :: RecordPath(buffers[a], i, rootName)
  }

  lemma {:induction false} ReplayAllPaths(buffers: seq<seq<Record>>, k: nat, rootName: string)
    requires AllWellFormed(buffers) && k <= |buffers|
    ensures ReplayAll(buffers, k, rootName).Keys == AllPaths(buffers, k, rootName)
  {
    if k > 0 {
      ReplayAllPaths(buffers, k - 1, rootName);
      var now, before := AllPaths(buffers, k, rootName), AllPaths(buffers, k - 1, rootName);
      var last := PathsFrom(buffers[k - 1], 0, rootName);
      forall p | p in now
        ensures p in before + last
      {
        var a, i :| 0 <= a < k && 0 <= i < |buffers[a]| && p == RecordPath(buffers[a], i, rootName);
        assert a < k - 1 ==> p in before;
      }
    }
  }

  /** A record of the buffer, from `lo` on, has call path `p` and id `id`. */
  ghost predicate FromBuffer(buf: seq<Record>, lo: nat, rootName: string, p: Path, id: Ids)
    requires ParentsKnown(buf)
  {
    exists i {:trigger RecordPath(buf, i, rootName)} :: lo <= i < |buf|
      && RecordPath(buf, i, rootName) == p && IdsOf(buf[i]) == id
  }

  /** The id stored at `p` is that of a record of the first `k` buffers with that call path. */
  ghost predicate FromRecord(buffers: seq<seq<Record>>, k: nat, rootName: string, p: Path, id: Ids)
    requires AllWellFormed(buffers) && k <= |buffers|
  {
    exists a, i {:trigger RecordPath(buffers[a], i, rootName)} :: 0 <= a < k && 0 <= i < |buffers[a]|
      && RecordPath(buffers[a], i, rootName) == p && IdsOf(buffers[a][i]) == id
  }

  lemma {:induction false} ReplayValues(ids: map<Path, Ids>, buf: seq<Record>, lo: nat, rootName: string, p: Path)
    requires ParentsKnown(buf) && lo <= |buf| && p in Replay(ids, buf, lo, rootName)
    ensures var id := Replay(ids, buf, lo, rootName)[p];
            || (p in ids && ids[p] == id)
            || FromBuffer(buf, lo, rootName, p, id)
    decreases |buf| - lo
  {
    if lo < |buf| {
      var here := RecordPath(buf, lo, rootName);
      var more := ids[here := IdsOf(buf[lo])];
      assert Replay(ids, buf, lo, rootName) == Replay(more, buf, lo + 1, rootName);
      hide Replay, RecordPath;
      ReplayValues(more, buf, lo + 1, rootName, p);
    }
  }

  lemma FromLastBuffer(buffers: seq<seq<Record>>, k: nat, rootName: string, p: Path, id: Ids)
    requires AllWellFormed(buffers) && 0 < k <= |buffers|
    requires FromBuffer(buffers[k - 1], 0, rootName, p, id)
    ensures FromRecord(buffers, k, rootName, p, id)
  {
  }

  lemma FromRecordGrows(buffers: seq<seq<Record>>, k: nat, rootName: string, p: Path, id: Ids)
    requires AllWellFormed(buffers) && 0 < k <= |buffers| && FromRecord(buffers, k - 1, rootName, p, id)
    ensures FromRecord(buffers, k, rootName, p, id)
  {
    var a, i :| 0 <= a < k - 1 && 0 <= i < |buffers[a]|
      && RecordPath(buffers[a], i, rootName) == p && IdsOf(buffers[a][i]) == id;
    assert RecordPath(buffers[a], i, rootName) == p;
  }

  lemma {:induction false} ReplayAllValues(buffers: seq<seq<Record>>, k: nat, rootName: string, p: Path)
    requires AllWellFormed(buffers) && k <= |buffers| && p in ReplayAll(buffers, k, rootName)
    ensures FromRecord(buffers, k, rootName, p, ReplayAll(buffers, k, rootName)[p])
  {
    hide WellFormed, FromRecord, FromBuffer, Replay, RecordPath;
    if k > 0 {
      var before := ReplayAll(buffers, k - 1, rootName);
      var id := ReplayAll(buffers, k, rootName)[p];
      ReplayAllStep(buffers, k - 1, rootName);
      ReplayValues(before, buffers[k - 1], 0, rootName, p);
      if p in before && before[p] == id {
        ReplayAllValues(buffers, k - 1, rootName, p);
        FromRecordGrows(buffers, k, rootName, p, id);
      } else {
        FromLastBuffer(buffers, k, rootName, p, id);
      }
    }
  }

  /** In a consistent run no stale id ever misleads the lookup. */
  lemma NeverStale(buffers: seq<seq<Record>>, k: nat, rootName: string)
    requires Consistent(buffers, rootName) && k < |buffers|
    ensures NoStaleIds(ReplayAll(buffers, k, rootName), buffers[k], 0, rootName)
  {
    var ids := ReplayAll(buffers, k, rootName);
    forall j | 0 <= j < |buffers[k]|
      ensures NoStaleId(ids, buffers[k][j].scorepId, RecordPath(buffers[k], j, rootName))
    {
      var p := RecordPath(buffers[k], j, rootName);
      forall q | q in ids && q != [] && ids[q].scorepId == buffers[k][j].scorepId && Init(q) == Init(p)
        ensures q == p
      {
        ReplayAllValues(buffers, k, rootName, q);
        var a, i :| 0 <= a < k && 0 <= i < |buffers[a]|
          && RecordPath(buffers[a], i, rootName) == q && IdsOf(buffers[a][i]) == ids[q];
        assert Agree(buffers, a, i, k, j, rootName);
      }
    }
  }

  // ----- an id that is used twice -----------------------------------------------------------

  /** Two processes that give the same id to different children of their phase region. */
  const INIT_BUFFER := [Record("main", 1, 0), Record("init", 7, 1)]
  const SOLVE_BUFFER := [Record("main", 1, 0), Record("solve", 7, 1)]

  /** Each buffer is as it should be, and only together they are not consistent. */
  lemma SameIdTwice()
    ensures WellFormed(INIT_BUFFER) && WellFormed(SOLVE_BUFFER) && !Consistent([INIT_BUFFER, SOLVE_BUFFER], "main")
    ensures NoStaleIds(map[], INIT_BUFFER, 0, "main")
    ensures Replay(map[], INIT_BUFFER, 0, "main") == map[["main"] := Ids(1, 0), ["main", "init"] := Ids(7, 1)]
    ensures RecordPath(SOLVE_BUFFER, 1, "main") == ["main", "solve"]
  {
    BelowMain("init");
    BelowMain("solve");
    ReplayStep(map[], INIT_BUFFER, 0, "main");
    ReplayStep(map[["main"] := Ids(1, 0)], INIT_BUFFER, 1, "main");
    assert !Agree([INIT_BUFFER, SOLVE_BUFFER], 0, 1, 1, 1, "main") by {
      assert ["main", "init"][1] != ["main", "solve"][1];
    }
  }

  lemma BelowMain(name: string)
    ensures var buf := [Record("main", 1, 0), Record(name, 7, 1)];
            && WellFormed(buf) && RecordPath(buf, 0, "main") == ["main"]
            && RecordPath(buf, 1, "main") == ["main", name] && Init(["main", name]) == ["main"]
  {
    var buf := [Record("main", 1, 0), Record(name, 7, 1)];
    assert ParentIndex(buf, 1) == 0;
    assert IsRoot(buf, 0) && !IsRoot(buf, 1);
    assert OnPath(buf, 0, 0);
    assert InPreorder(buf, 1);
    assert ["main"] + [name] == ["main", name];
  }
}
