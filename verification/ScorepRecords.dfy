/** The flat call-tree buffers an application process sends: one record for each node of a thread's
    call tree in preorder, thread after thread, each naming its parent by the parent's Score-P id. */
module ScorepRecords {
  import opened CallPaths
  import opened Sequences

  datatype Record = Record(name: string, scorepId: int, parentScorepId: int)

  /** A record with parent id 0 is the phase region of a thread: the root. */
  predicate IsRoot(buf: seq<Record>, i: nat)
    requires i < |buf|
  {
    buf[i].parentScorepId == 0
  }

  /** The latest record before `i` with Score-P id `id`, or -1. */
  function LatestWithId(buf: seq<Record>, id: int, i: nat): (j: int)
    requires i <= |buf|
    ensures -1 <= j < i
    ensures j >= 0 ==> buf[j].scorepId == id
    ensures j == -1 ==> forall k :: 0 <= k < i ==> buf[k].scorepId != id
  {
    if i == 0 then -1
    else if buf[i - 1].scorepId == id then i - 1
    else LatestWithId(buf, id, i - 1)
  }

  function ParentIndex(buf: seq<Record>, i: nat): (j: int)
    requires i < |buf|
    ensures -1 <= j < i
    ensures j >= 0 ==> buf[j].scorepId == buf[i].parentScorepId
  {
    LatestWithId(buf, buf[i].parentScorepId, i)
  }

  /** Every record that is not a root names an earlier record. */
  ghost predicate ParentsKnown(buf: seq<Record>) {
    forall i :: 0 <= i < |buf| && !IsRoot(buf, i) ==> ParentIndex(buf, i) >= 0
  }

  /** Record `a` is record `c` or one of its ancestors. */
  ghost predicate OnPath(buf: seq<Record>, a: nat, c: nat)
    requires ParentsKnown(buf) && c < |buf|
    decreases c
  {
    a == c || (!IsRoot(buf, c) && OnPath(buf, a, ParentIndex(buf, c)))
  }

  ghost predicate DistinctIds(buf: seq<Record>) {
    forall i, j :: 0 <= i < j < |buf| ==> buf[i].scorepId != buf[j].scorepId
  }

  /** Record `i` continues the preorder: its parent is on the path from the root to record `i - 1`. */
  ghost predicate InPreorder(buf: seq<Record>, i: nat)
    requires ParentsKnown(buf) && 1 <= i < |buf|
  {
    IsRoot(buf, i) || OnPath(buf, ParentIndex(buf, i), i - 1)
  }

  /** What Score-P guarantees of a buffer: it opens with a root, ids are not used twice, and each
      record's parent is on the path from the root to the record just before it (preorder). */
  ghost predicate WellFormed(buf: seq<Record>) {
    && buf != []
    && IsRoot(buf, 0)
    && DistinctIds(buf)
    && ParentsKnown(buf)
    && forall i {:trigger InPreorder(buf, i)} :: 1 <= i < |buf| ==> InPreorder(buf, i)
  }

  /** The call path of a record, by its parent ids alone.  Every thread's root stands for the one
      root of the tree, whatever the record calls it. */
  ghost function RecordPath(buf: seq<Record>, i: nat, rootName: string): (p: Path)
    requires ParentsKnown(buf) && i < |buf|
    ensures p != [] && p[0] == rootName
    ensures !IsRoot(buf, i) ==> |p| > 1 && Last(p) == buf[i].name
    decreases i
  {
    if IsRoot(buf, i) then [rootName] else RecordPath(buf, ParentIndex(buf, i), rootName) + [buf[i].name]
  }

  /** The call paths a buffer mentions, from record `lo` on. */
  ghost function PathsFrom(buf: seq<Record>, lo: nat, rootName: string): set<Path>
    requires ParentsKnown(buf)
  {
    set i | lo <= i < |buf| :: RecordPath(buf, i, rootName)
  }

  lemma PathsFromStep(buf: seq<Record>, lo: nat, rootName: string)
    requires ParentsKnown(buf) && lo < |buf|
    ensures PathsFrom(buf, lo, rootName) == {RecordPath(buf, lo, rootName)} + PathsFrom(buf, lo + 1, rootName)
  {
    var whole, rest := PathsFrom(buf, lo, rootName), PathsFrom(buf, lo + 1, rootName);
    forall p | p in whole
      ensures p in {RecordPath(buf, lo, rootName)} + rest
    {
      var i :| lo <= i < |buf| && RecordPath(buf, i, rootName) == p;
      if i != lo {
        assert RecordPath(buf, i, rootName) in rest;
      }
    }
  }

  /** An ancestor's call path is a proper prefix. */
  lemma {:induction false} AncestorPath(buf: seq<Record>, a: nat, c: nat, rootName: string)
    requires ParentsKnown(buf) && c < |buf| && OnPath(buf, a, c)
    ensures a <= c
    ensures RecordPath(buf, a, rootName) <= RecordPath(buf, c, rootName)
    ensures a != c ==> |RecordPath(buf, a, rootName)| < |RecordPath(buf, c, rootName)|
    decreases c
  {
    if a != c {
      AncestorPath(buf, a, ParentIndex(buf, c), rootName);
    }
  }

  /** All call paths of a well-formed buffer are prefix closed: a record's parent path is there. */
  lemma ParentPathPresent(buf: seq<Record>, i: nat, rootName: string)
    requires ParentsKnown(buf) && i < |buf| && !IsRoot(buf, i)
    ensures Init(RecordPath(buf, i, rootName)) == RecordPath(buf, ParentIndex(buf, i), rootName)
    ensures Init(RecordPath(buf, i, rootName)) in PathsFrom(buf, 0, rootName)
  {
    assert RecordPath(buf, ParentIndex(buf, i), rootName) in PathsFrom(buf, 0, rootName);
  }

  /** With distinct ids the parent is the only record with the parent's id. */
  lemma ParentUnique(buf: seq<Record>, i: nat, j: nat)
    requires DistinctIds(buf) && i < |buf| && j < i
    requires buf[j].scorepId == buf[i].parentScorepId
    ensures ParentIndex(buf, i) == j
  {
    var p := ParentIndex(buf, i);
    assert p == j || p < j || j < p;
  }
}
