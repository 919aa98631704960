/** The shape of the agent hierarchy: how processes are clustered, how many agents each level has,
    and which tag each agent gets. */
module Hierarchy {
  import opened Arithmetic
  import opened DecimalStrings
  import opened Separators
  import opened Options
  import opened Sequences
  import opened Tokens

  // ----- clustering -------------------------------------------------------------------------

  type Groups = gs: seq<seq<int>> | gs != [] witness [[]]

  /** Where the next process goes: into the last group, or into a new one if that is full. */
  function Place(groups: Groups, id: int, clusterSize: nat): Groups {
    if |Last(groups)| + 1 > clusterSize then groups + [[id]]
    else Init(groups) + [Last(groups) + [id]]
  }

  function PlaceAll(groups: Groups, ids: seq<int>, clusterSize: nat): Groups {
    if ids == [] then groups else Place(PlaceAll(groups, Init(ids), clusterSize), Last(ids), clusterSize)
  }

  lemma PlaceAllSnoc(groups: Groups, ids: seq<int>, id: int, clusterSize: nat)
    ensures PlaceAll(groups, ids + [id], clusterSize) == Place(PlaceAll(groups, ids, clusterSize), id, clusterSize)
  {
    assert Init(ids + [id]) == ids;
  }

  function Clusters(ids: seq<int>, clusterSize: nat): Groups {
    PlaceAll([[]], ids, clusterSize)
  }

  /** All groups but the last are full, and only a single group may be empty. */
  ghost predicate Filled(groups: Groups, clusterSize: nat) {
    && (forall k :: 0 <= k < |groups| - 1 ==> |groups[k]| == clusterSize)
    && |Last(groups)| <= clusterSize
    && (|groups| > 1 ==> Last(groups) != [])
  }

  /** Clustering keeps every process, in order, and uses as few groups as possible, but at least one. */
  lemma ClustersFilled(ids: seq<int>, clusterSize: nat)
    requires clusterSize >= 1
    ensures Filled(Clusters(ids, clusterSize), clusterSize)
    ensures Flat(Clusters(ids, clusterSize)) == ids
    ensures |Clusters(ids, clusterSize)| == if ids == [] then 1 else CeilDiv(|ids|, clusterSize)
  {
    ClustersCount(ids, clusterSize);
    if ids != [] {
      var k := |Clusters(ids, clusterSize)|;
      assert k * clusterSize == (k - 1) * clusterSize + clusterSize;
      CeilDivUnique(|ids|, clusterSize, k);
    }
  }

  lemma {:induction false} ClustersCount(ids: seq<int>, clusterSize: nat)
    requires clusterSize >= 1
    ensures Filled(Clusters(ids, clusterSize), clusterSize)
    ensures Flat(Clusters(ids, clusterSize)) == ids
    ensures |ids| == (|Clusters(ids, clusterSize)| - 1) * clusterSize + |Last(Clusters(ids, clusterSize))|
    ensures ids != [] ==> Last(Clusters(ids, clusterSize)) != []
  {
    if ids == [] {
      var none: seq<seq<int>> := [[]];
      assert Init(none) == [];
    } else {
      ClustersCount(Init(ids), clusterSize);
      var before, after := Clusters(Init(ids), clusterSize), Clusters(ids, clusterSize);
      PlaceKeeps(before, Last(ids), clusterSize);
      assert ids == Init(ids) + [Last(ids)];
      assert |before| * clusterSize == (|before| - 1) * clusterSize + clusterSize;
    }
  }

  lemma PlaceKeeps(groups: Groups, id: int, clusterSize: nat)
    requires clusterSize >= 1 && Filled(groups, clusterSize)
    ensures var after := Place(groups, id, clusterSize);
            && Filled(after, clusterSize) && Flat(after) == Flat(groups) + [id] && Last(after) != []
            && (if |Last(groups)| == clusterSize then |after| == |groups| + 1 && |Last(after)| == 1
                else |after| == |groups| && |Last(after)| == |Last(groups)| + 1)
  {
    var after := Place(groups, id, clusterSize);
    if |Last(groups)| + 1 > clusterSize {
      assert Init(after) == groups;
    } else {
      assert Init(after) == Init(groups);
    }
  }

  lemma PlaceSuffix(before: seq<seq<int>>, groups: Groups, id: int, clusterSize: nat)
    ensures Place(before + groups, id, clusterSize) == before + Place(groups, id, clusterSize)
  {
    assert Last(before + groups) == Last(groups) && Init(before + groups) == before + Init(groups);
    Regroup(before, groups, [[id]]);
    Regroup(before, Init(groups), [Last(groups) + [id]]);
  }

  /** Earlier groups are not touched any more. */
  lemma {:induction false} PlaceAllSuffix(before: seq<seq<int>>, groups: Groups, ids: seq<int>, clusterSize: nat)
    ensures PlaceAll(before + groups, ids, clusterSize) == before + PlaceAll(groups, ids, clusterSize)
  {
    if ids != [] {
      hide Place;
      PlaceAllSuffix(before, groups, Init(ids), clusterSize);
      PlaceSuffix(before, PlaceAll(groups, Init(ids), clusterSize), Last(ids), clusterSize);
    }
  }

  // ----- clustering host by host ------------------------------------------------------------

  datatype EntryData = EntryData(node: string, id: int)

  function Ids(processes: seq<EntryData>): seq<int> {
    if processes == [] then [] else Ids(Init(processes)) + [Last(processes).id]
  }

  /** The processes on one host, in order. */
  function IdsOn(processes: seq<EntryData>, host: string): seq<int> {
    if processes == [] then []
    else IdsOn(Init(processes), host) + if Last(processes).node == host then [Last(processes).id] else []
  }

  /** Each host's processes are clustered on their own. */
  function HostClusters(processes: seq<EntryData>, hosts: seq<string>, clusterSize: nat): seq<seq<int>> {
    if hosts == [] then []
    else HostClusters(processes, Init(hosts), clusterSize) + Clusters(IdsOn(processes, Last(hosts)), clusterSize)
  }

  function HostIds(processes: seq<EntryData>, hosts: seq<string>): seq<int> {
    if hosts == [] then [] else HostIds(processes, Init(hosts)) + IdsOn(processes, Last(hosts))
  }

  /** What the agents are to hold; without processes there still is one agent. */
  function HostGroups(processes: seq<EntryData>, hosts: seq<string>, clusterSize: nat): Groups {
    var groups := HostClusters(processes, hosts, clusterSize);
    if groups == [] then [[]] else groups
  }

  ghost function Nodes(processes: seq<EntryData>): set<string> {
    if processes == [] then {} else Nodes(Init(processes)) + {Last(processes).node}
  }

  /** `hosts` names each host of a process once. */
  ghost predicate ListsHosts(hosts: seq<string>, processes: seq<EntryData>) {
    Distinct(hosts) && forall h :: h in hosts <==> h in Nodes(processes)
  }

  lemma {:induction false} HostHasIds(processes: seq<EntryData>, host: string)
    ensures IdsOn(processes, host) != [] <==> host in Nodes(processes)
  {
    if processes != [] {
      HostHasIds(Init(processes), host);
    }
  }

  lemma {:induction false} NodeOf(processes: seq<EntryData>, k: nat)
    requires k < |processes|
    ensures processes[k].node in Nodes(processes)
  {
    if k < |processes| - 1 {
      NodeOf(Init(processes), k);
    }
  }

  /** No agent mixes processes of different hosts, or holds too many, or none. */
  lemma OneHostPerAgent(processes: seq<EntryData>, hosts: seq<string>, clusterSize: nat, k: nat) returns (host: string)
    requires clusterSize >= 1 && ListsHosts(hosts, processes) && k < |HostClusters(processes, hosts, clusterSize)|
    ensures host in Nodes(processes)
    ensures forall id :: id in HostClusters(processes, hosts, clusterSize)[k] ==> id in IdsOn(processes, host)
    ensures 1 <= |HostClusters(processes, hosts, clusterSize)[k]| <= clusterSize
  {
    forall h | 0 <= h < |hosts|
      ensures IdsOn(processes, hosts[h]) != []
    {
      HostHasIds(processes, hosts[h]);
    }
    host := OneHostPerCluster(processes, hosts, clusterSize, k);
  }

  lemma {:induction false} OneHostPerCluster(processes: seq<EntryData>, hosts: seq<string>, clusterSize: nat, k: nat)
    returns (host: string)
    requires clusterSize >= 1 && k < |HostClusters(processes, hosts, clusterSize)|
    requires forall h :: 0 <= h < |hosts| ==> IdsOn(processes, hosts[h]) != []
    ensures host in hosts
    ensures forall id :: id in HostClusters(processes, hosts, clusterSize)[k] ==> id in IdsOn(processes, host)
    ensures 1 <= |HostClusters(processes, hosts, clusterSize)[k]| <= clusterSize
  {
    var before := HostClusters(processes, Init(hosts), clusterSize);
    if k < |before| {
      host := OneHostPerCluster(processes, Init(hosts), clusterSize, k);
    } else {
      host := Last(hosts);
      ClustersFilled(IdsOn(processes, host), clusterSize);
      ClustersCount(IdsOn(processes, host), clusterSize);
      InFlat(Clusters(IdsOn(processes, host), clusterSize), k - |before|);
    }
  }

  /** The agents together hold the processes host by host ... */
  lemma {:induction false} HostClustersFlat(processes: seq<EntryData>, hosts: seq<string>, clusterSize: nat)
    requires clusterSize >= 1
    ensures Flat(HostClusters(processes, hosts, clusterSize)) == HostIds(processes, hosts)
  {
    if hosts != [] {
      HostClustersFlat(processes, Init(hosts), clusterSize);
      var ids := IdsOn(processes, Last(hosts));
      ClustersFilled(ids, clusterSize);
      FlatAppend(HostClusters(processes, Init(hosts), clusterSize), Clusters(ids, clusterSize));
    }
  }

  lemma {:induction false} HostIdsSnoc(processes: seq<EntryData>, entry: EntryData, hosts: seq<string>)
    requires Distinct(hosts)
    ensures multiset(HostIds(processes + [entry], hosts))
         == multiset(HostIds(processes, hosts)) + if entry.node in hosts then multiset{entry.id} else multiset{}
  {
    hide IdsOn;
    if hosts != [] {
      HostIdsSnoc(processes, entry, Init(hosts));
      IdsOnSnoc(processes, entry, Last(hosts));
      InOrLast(hosts, entry.node);
      var a, b := HostIds(processes, Init(hosts)), IdsOn(processes, Last(hosts));
      var a', b' := HostIds(processes + [entry], Init(hosts)), IdsOn(processes + [entry], Last(hosts));
      assert multiset(a + b) == multiset(a) + multiset(b);
      assert multiset(a' + b') == multiset(a') + multiset(b');
    }
  }

  lemma IdsOnSnoc(processes: seq<EntryData>, entry: EntryData, host: string)
    ensures multiset(IdsOn(processes + [entry], host))
         == multiset(IdsOn(processes, host)) + if entry.node == host then multiset{entry.id} else multiset{}
  {
    assert Init(processes + [entry]) == processes;
  }

  lemma InOrLast(hosts: seq<string>, host: string)
    requires hosts != [] && Distinct(hosts)
    ensures Distinct(Init(hosts))
    ensures host in hosts <==> host in Init(hosts) || host == Last(hosts)
    ensures !(host in Init(hosts) && host == Last(hosts))
  {
    assert hosts == Init(hosts) + [Last(hosts)];
  }

  /** ... and that is every process exactly once. */
  lemma EveryProcessOnce(processes: seq<EntryData>, hosts: seq<string>, clusterSize: nat)
    requires clusterSize >= 1 && ListsHosts(hosts, processes)
    ensures multiset(Flat(HostGroups(processes, hosts, clusterSize))) == multiset(Ids(processes))
  {
    forall k | 0 <= k < |processes|
      ensures processes[k].node in hosts
    {
      NodeOf(processes, k);
    }
    HostClustersFlat(processes, hosts, clusterSize);
    HostIdsAll(processes, hosts);
    var none: seq<seq<int>> := [[]];
    assert Init(none) == [];
  }

  lemma {:induction false} HostIdsAll(processes: seq<EntryData>, hosts: seq<string>)
    requires Distinct(hosts) && forall k :: 0 <= k < |processes| ==> processes[k].node in hosts
    ensures multiset(HostIds(processes, hosts)) == multiset(Ids(processes))
  {
    hide HostIds, IdsOn;
    if processes == [] {
      NoIds(hosts);
    } else {
      HostIdsAll(Init(processes), hosts);
      HostIdsSnoc(Init(processes), Last(processes), hosts);
      assert processes == Init(processes) + [Last(processes)];
    }
  }

  lemma {:induction false} NoIds(hosts: seq<string>)
    ensures HostIds([], hosts) == []
  {
    if hosts != [] {
      NoIds(Init(hosts));
    }
  }

  // ----- levels -----------------------------------------------------------------------------

  /** How many agents it takes above `n` agents. */
  function Parents(n: nat, maxfan: nat): nat
    requires maxfan >= 1
  {
    if maxfan == 1 then 1 else CeilDiv(n, maxfan)
  }

  lemma ParentsBetween(n: nat, maxfan: nat)
    requires maxfan >= 1 && n >= 1
    ensures 1 <= Parents(n, maxfan) <= n && (n >= 2 ==> Parents(n, maxfan) < n)
    ensures maxfan >= 2 ==> (Parents(n, maxfan) - 1) * maxfan < n <= Parents(n, maxfan) * maxfan
  {
    hide CeilDiv;
    if maxfan >= 2 {
      CeilDivBounds(n, maxfan);
      TimesMonotone(2, maxfan, CeilDiv(n, maxfan) - 1);
    }
  }

  /** The number of agents on level `k` above `n` analysis agents. */
  function Size(n: nat, maxfan: nat, k: nat): nat
    requires maxfan >= 1
  {
    if k == 0 then n else Parents(Size(n, maxfan, k - 1), maxfan)
  }

  /** How many levels there are above `n` agents. */
  function Height(n: nat, maxfan: nat): nat
    requires maxfan >= 1
  {
    if n <= 1 then 0
    else
      ParentsBetween(n, maxfan);
      1 + Height(Parents(n, maxfan), maxfan)
  }

  function Pow(b: nat, e: nat): nat {
    if e == 0 then 1 else b * Pow(b, e - 1)
  }

  /** The tree is no higher than it has to be for its fan-out. */
  lemma {:induction false} HeightLeast(n: nat, maxfan: nat, h: nat)
    requires maxfan >= 2 && n >= 1
    ensures h >= Height(n, maxfan) <==> Pow(maxfan, h) >= n
    decreases n
  {
    if n == 1 {
      PowPositive(maxfan, h);
    } else if h > 0 {
      ParentsBetween(n, maxfan);
      var p, q := Parents(n, maxfan), Pow(maxfan, h - 1);
      HeightLeast(p, maxfan, h - 1);
      if q >= p {
        TimesMonotone(p, q, maxfan);
      } else {
        TimesMonotone(q, p - 1, maxfan);
      }
      assert q * maxfan == Pow(maxfan, h);
    }
  }

  lemma {:induction false} PowPositive(b: nat, e: nat)
    requires b >= 1
    ensures Pow(b, e) >= 1
  {
    if e > 0 {
      PowPositive(b, e - 1);
      TimesMonotone(1, Pow(b, e - 1), b);
    }
  }

  /** With a fan-out of 1 a single agent sits above all. */
  lemma HeightOfFlat(n: nat)
    ensures Height(n, 1) == if n <= 1 then 0 else 1
  {
    if n > 1 {
      assert Height(1, 1) == 0;
    }
  }

  lemma {:induction false} SizeShift(n: nat, maxfan: nat, k: nat)
    requires maxfan >= 1
    ensures Size(n, maxfan, k + 1) == Size(Parents(n, maxfan), maxfan, k)
  {
    if k > 0 {
      SizeShift(n, maxfan, k - 1);
    }
  }

  /** The topmost level has one agent, and no level below it has. */
  lemma {:induction false} TopHasOne(n: nat, maxfan: nat, k: nat)
    requires maxfan >= 1 && n >= 1 && k <= Height(n, maxfan)
    ensures Size(n, maxfan, k) >= 1
    ensures Size(n, maxfan, k) == 1 <==> k == Height(n, maxfan)
    decreases n
  {
    if n > 1 {
      ParentsBetween(n, maxfan);
      if k > 0 {
        TopHasOne(Parents(n, maxfan), maxfan, k - 1);
        SizeShift(n, maxfan, k - 1);
      }
    }
  }

  // ----- who is whose parent ----------------------------------------------------------------

  /** The position of the parent, and the position among its children. */
  function Up(i: nat, maxfan: nat): nat
    requires maxfan >= 1
  {
    if maxfan == 1 then 0 else i / maxfan
  }

  function Component(i: nat, maxfan: nat): nat
    requires maxfan >= 1
  {
    if maxfan == 1 then i else i % maxfan
  }

  function KidsFrom(p: nat, maxfan: nat): nat {
    if maxfan == 1 then 0 else p * maxfan
  }

  /** Agent `p` has a full set of children among `n`. */
  predicate Full(n: nat, p: nat, maxfan: nat) {
    maxfan > 1 && (p + 1) * maxfan <= n
  }

  function KidsTo(n: nat, p: nat, maxfan: nat): nat {
    if Full(n, p, maxfan) then (p + 1) * maxfan else n
  }

  /** The agents whose parent is `p` are a run of agents ... */
  lemma KidsOf(n: nat, p: nat, maxfan: nat, i: nat)
    requires maxfan >= 1 && p < Parents(n, maxfan) && i < n
    ensures KidsFrom(p, maxfan) <= i < KidsTo(n, p, maxfan) <==> Up(i, maxfan) == p
    ensures i == KidsFrom(Up(i, maxfan), maxfan) + Component(i, maxfan)
  {
    if maxfan > 1 {
      var u := i / maxfan;
      DivBounds(i, maxfan);
      if u < p {
        TimesMonotone(u + 1, p, maxfan);
      } else if u > p {
        TimesMonotone(p + 1, u, maxfan);
      }
    }
  }

  /** ... of at least one, and of at most `maxfan` unless that is 1. */
  lemma KidsCount(n: nat, p: nat, maxfan: nat)
    requires maxfan >= 1 && p < Parents(n, maxfan) && n >= 1
    ensures 1 <= KidsTo(n, p, maxfan) - KidsFrom(p, maxfan)
    ensures maxfan > 1 ==> KidsTo(n, p, maxfan) - KidsFrom(p, maxfan) <= maxfan
  {
    hide Parents;
    ParentsBetween(n, maxfan);
    if maxfan > 1 {
      OneMoreTimes(p, maxfan);
      TimesMonotone(p, Parents(n, maxfan) - 1, maxfan);
    }
  }

  /** From one agent to the next: the next child of the same parent, or the first of the next one. */
  lemma NextPlace(c: nat, maxfan: nat)
    requires maxfan >= 1
    ensures var u := Up(c, maxfan);
            && KidsFrom(u, maxfan) <= c
            && if maxfan > 1 && Component(c, maxfan) + 1 == maxfan then
                 && Up(c + 1, maxfan) == u + 1 && Component(c + 1, maxfan) == 0
                 && (u + 1) * maxfan == c + 1 && KidsFrom(u + 1, maxfan) == c + 1
               else
                 Up(c + 1, maxfan) == u && Component(c + 1, maxfan) == Component(c, maxfan) + 1
  {
    if maxfan > 1 {
      DivBounds(c, maxfan);
      NextQuotient(c, c / maxfan, c % maxfan, maxfan);
    }
  }

  /** The place behind the last of `n` agents: below the last parent, or below none. */
  lemma BehindLast(n: nat, maxfan: nat)
    requires maxfan >= 1 && n >= 1
    ensures var u := Up(n, maxfan); u <= Parents(n, maxfan) <= u + 1 && !Full(n, u, maxfan)
  {
    ParentsBetween(n, maxfan);
    hide Parents;
    if maxfan > 1 {
      var u, q := n / maxfan, Parents(n, maxfan);
      DivBounds(n, maxfan);
      if q < u {
        TimesMonotone(q + 1, u, maxfan);
        OneMoreTimes(q, maxfan);
      } else if u + 1 < q {
        TimesMonotone(u + 1, q - 1, maxfan);
      }
    } else {
      OneParent(n);
    }
  }

  lemma OneParent(n: nat)
    ensures Parents(n, 1) == 1
  {
  }

  lemma UpBelow(n: nat, maxfan: nat, i: nat)
    requires maxfan >= 1 && i < n
    ensures Up(i, maxfan) < Parents(n, maxfan)
  {
    ParentsBetween(n, maxfan);
    if maxfan > 1 {
      DivBounds(i, maxfan);
      if i / maxfan >= Parents(n, maxfan) {
        TimesMonotone(Parents(n, maxfan), i / maxfan, maxfan);
      }
    }
  }

  // ----- tags -------------------------------------------------------------------------------

  /** The components of the tag of agent `i` on level `k`, counted from the topmost level. */
  function PathOf(top: nat, k: nat, i: nat, maxfan: nat): seq<nat>
    requires k <= top && maxfan >= 1
    decreases top - k
  {
    if k == top then [0] else PathOf(top, k + 1, Up(i, maxfan), maxfan) + [Component(i, maxfan)]
  }

  function Numbered(name: string, id: int): string {
    name + ("[" + Dec(id) + "]")
  }

  function TagOf(ownId: int, path: seq<nat>): string {
    if path == [] then Numbered("fe", ownId) else TagOf(ownId, Init(path)) + ":" + Dec(Last(path))
  }

  function Tag(ownId: int, top: nat, k: nat, i: nat, maxfan: nat): string
    requires k <= top && maxfan >= 1
  {
    TagOf(ownId, PathOf(top, k, i, maxfan))
  }

  /** There is an agent `i` on level `k` of a hierarchy with one agent on its topmost level. */
  ghost predicate At(n: nat, maxfan: nat, top: nat, k: nat, i: nat)
    requires maxfan >= 1
  {
    k <= top && i < Size(n, maxfan, k) && Size(n, maxfan, top) == 1
  }

  lemma ParentAt(n: nat, maxfan: nat, top: nat, k: nat, i: nat)
    requires maxfan >= 1 && At(n, maxfan, top, k, i) && k < top
    ensures At(n, maxfan, top, k + 1, Up(i, maxfan))
  {
    UpBelow(Size(n, maxfan, k), maxfan, i);
  }

  lemma DecHasNo(n: int, c: char)
    requires c in ":, \n\0"
    ensures c !in Dec(n)
  {
    DecPlain(n);
    assert c !in DIGITS && c != '-';
  }

  lemma TagStep(ownId: int, path: seq<nat>)
    requires path != []
    ensures TagOf(ownId, path) == TagOf(ownId, Init(path)) + [':'] + Dec(Last(path))
    ensures ':' in TagOf(ownId, path)
  {
    assert TagOf(ownId, path)[|TagOf(ownId, Init(path))|] == ':';
  }

  /** A tag tells the frontend and the place: neither two places nor two frontends share one. */
  lemma {:induction false} TagInjective(a: int, p: seq<nat>, b: int, q: seq<nat>)
    ensures TagOf(a, p) == TagOf(b, q) <==> a == b && p == q
  {
    hide TagOf, Dec;
    if TagOf(a, p) == TagOf(b, q) {
      NoColon(a);
      NoColon(b);
      if p != [] {
        TagStep(a, p);
      }
      if q != [] {
        TagStep(b, q);
      }
      if p != [] && q != [] {
        DecHasNo(Last(p), ':');
        DecHasNo(Last(q), ':');
        LastUnique(TagOf(a, Init(p)), Dec(Last(p)), TagOf(b, Init(q)), Dec(Last(q)), ':');
        TagInjective(a, Init(p), b, Init(q));
        DecInjective(Last(p), Last(q));
        assert p == Init(p) + [Last(p)] && q == Init(q) + [Last(q)];
      } else if p == [] && q == [] {
        FrontendInjective(a, b);
      }
    }
  }

  lemma FrontendTag(ownId: int)
    ensures TagOf(ownId, []) == "fe[" + Dec(ownId) + "]" && TagOf(ownId, [0]) == "fe[" + Dec(ownId) + "]:0"
  {
    assert "fe[" == "fe" + "[" && "]:0" == "]" + ":0" && ":0" == ":" + Dec(0);
    assert Init([0]) == [] && Last([0]) == 0;
  }

  lemma FrontendInjective(a: int, b: int)
    ensures TagOf(a, []) == TagOf(b, []) <==> a == b
  {
    FrontendTag(a);
    FrontendTag(b);
    hide TagOf, Dec;
    if TagOf(a, []) == TagOf(b, []) {
      var s := TagOf(a, []);
      assert s[3..|s| - 1] == Dec(a) && s[3..|s| - 1] == Dec(b);
      DecInjective(a, b);
    }
  }

  lemma NoColon(ownId: int)
    ensures ':' !in TagOf(ownId, [])
  {
    DecHasNo(ownId, ':');
  }

  lemma SamePlace(i: nat, i': nat, maxfan: nat)
    requires maxfan >= 1 && Up(i, maxfan) == Up(i', maxfan) && Component(i, maxfan) == Component(i', maxfan)
    ensures i == i'
  {
  }

  lemma {:induction false} PathInjective(n: nat, maxfan: nat, top: nat, k: nat, i: nat, k': nat, i': nat)
    requires maxfan >= 1 && At(n, maxfan, top, k, i) && At(n, maxfan, top, k', i')
    requires PathOf(top, k, i, maxfan) == PathOf(top, k', i', maxfan)
    ensures k == k' && i == i'
    decreases top - k
  {
    PathLength(top, k, i, maxfan);
    PathLength(top, k', i', maxfan);
    if k < top {
      var p, p' := PathOf(top, k, i, maxfan), PathOf(top, k', i', maxfan);
      ParentAt(n, maxfan, top, k, i);
      ParentAt(n, maxfan, top, k', i');
      assert Init(p) == PathOf(top, k + 1, Up(i, maxfan), maxfan);
      assert Init(p') == PathOf(top, k' + 1, Up(i', maxfan), maxfan);
      PathInjective(n, maxfan, top, k + 1, Up(i, maxfan), k' + 1, Up(i', maxfan));
      assert Last(p) == Last(p');
      SamePlace(i, i', maxfan);
    }
  }

  lemma {:induction false} PathLength(top: nat, k: nat, i: nat, maxfan: nat)
    requires k <= top && maxfan >= 1
    ensures |PathOf(top, k, i, maxfan)| == top - k + 1
    decreases top - k
  {
    if k < top {
      PathLength(top, k + 1, Up(i, maxfan), maxfan);
    }
  }

  /** No two agents anywhere in the hierarchy share a tag. */
  lemma TagsUnique(ownId: int, n: nat, maxfan: nat, top: nat, k: nat, i: nat, k': nat, i': nat)
    requires maxfan >= 1 && At(n, maxfan, top, k, i) && At(n, maxfan, top, k', i')
    ensures Tag(ownId, top, k, i, maxfan) == Tag(ownId, top, k', i', maxfan) <==> k == k' && i == i'
  {
    TagInjective(ownId, PathOf(top, k, i, maxfan), ownId, PathOf(top, k', i', maxfan));
    if PathOf(top, k, i, maxfan) == PathOf(top, k', i', maxfan) {
      PathInjective(n, maxfan, top, k, i, k', i');
    }
  }

  /** The graph of the agents finds each agent's parent from its tag. */
  lemma TagParent(ownId: int, top: nat, k: nat, i: nat, maxfan: nat)
    requires k <= top && maxfan >= 1
    ensures ParentOf(Tag(ownId, top, k, i, maxfan))
         == Some(if k < top then Tag(ownId, top, k + 1, Up(i, maxfan), maxfan) else TagOf(ownId, []))
  {
    var p := PathOf(top, k, i, maxfan);
    var parent := TagOf(ownId, Init(p));
    assert k < top ==> Init(p) == PathOf(top, k + 1, Up(i, maxfan), maxfan);
    DecPlain(Last(p));
    DecHasNo(Last(p), ':');
    ParentOfChild(parent, Dec(Last(p)));
    TagEnd(ownId, Init(p));
  }

  /** An agent's tag is its parent's with the agent's number among the children. */
  lemma TagBelow(ownId: int, top: nat, k: nat, i: nat, maxfan: nat)
    requires k < top && maxfan >= 1
    ensures Tag(ownId, top, k, i, maxfan)
         == Tag(ownId, top, k + 1, Up(i, maxfan), maxfan) + ":" + Dec(if maxfan == 1 then i else i % maxfan)
  {
    var p := PathOf(top, k, i, maxfan);
    assert Init(p) == PathOf(top, k + 1, Up(i, maxfan), maxfan) && Last(p) == Component(i, maxfan);
    hide Dec, Natural;
  }

  lemma TagEnd(ownId: int, path: seq<nat>)
    ensures TagOf(ownId, path) != "" && Last(TagOf(ownId, path)) != ':'
  {
    if path != [] {
      DecPlain(Last(path));
      DecHasNo(Last(path), ':');
      assert Last(TagOf(ownId, path)) == Last(Dec(Last(path)));
    }
  }

  /** The parent named in the topmost agent's own description is the one the graph finds exactly
      when the frontend's local tag is the one the agent tags are built on. */
  lemma TopParent(ownId: int, localTag: string)
    ensures ParentOf(TagOf(ownId, [0])) == Some(Numbered(localTag, ownId)) <==> localTag == "fe"
  {
    TopTag(ownId);
    hide TagOf, ParentOf;
    Prefix("fe", localTag, "[" + Dec(ownId) + "]");
  }

  lemma TopTag(ownId: int)
    ensures ParentOf(TagOf(ownId, [0])) == Some(TagOf(ownId, [])) && TagOf(ownId, []) == Numbered("fe", ownId)
  {
    TagParent(ownId, 0, 0, 0, 1);
    hide TagOf, ParentOf;
    assert PathOf(0, 0, 0, 1) == [0];
    assert TagOf(ownId, []) == Numbered("fe", ownId) by { TopIs(ownId); }
  }

  lemma TopIs(ownId: int)
    ensures TagOf(ownId, []) == Numbered("fe", ownId)
  {
  }

  lemma Prefix(a: string, b: string, rest: string)
    ensures a + rest == b + rest <==> a == b
  {
    if a + rest == b + rest {
      assert (a + rest)[..|a|] == a && (b + rest)[..|b|] == b;
    }
  }

  // ----- children lists ---------------------------------------------------------------------

  const DELIMITERS := " ,\n"

  function KidTags(ownId: int, top: nat, k: nat, lo: nat, hi: nat, maxfan: nat): seq<string>
    requires k <= top && maxfan >= 1
    decreases hi
  {
    if hi <= lo then [] else KidTags(ownId, top, k, lo, hi - 1, maxfan) + [Tag(ownId, top, k, hi - 1, maxfan)]
  }

  /** The list of tags of the children of agent `p`, which are on level `k` with its `n` agents: a
      list that is not full ends in a comma. */
  function ChildrenOf(ownId: int, top: nat, k: nat, n: nat, p: nat, maxfan: nat): string
    requires k < top && maxfan >= 1
  {
    var tags := KidTags(ownId, top, k, KidsFrom(p, maxfan), KidsTo(n, p, maxfan), maxfan);
    if Full(n, p, maxfan) then Listed(tags) else Commas(tags)
  }

  lemma {:induction false} TagPlain(ownId: int, path: seq<nat>)
    ensures Plain(TagOf(ownId, path), DELIMITERS)
  {
    var last := if path == [] then ownId else Last(path);
    hide Dec;
    DecPlain(last);
    DecHasNo(last, ' ');
    DecHasNo(last, ',');
    DecHasNo(last, '\n');
    if path != [] {
      TagPlain(ownId, Init(path));
    }
  }

  lemma {:induction false} KidTagsPlain(ownId: int, top: nat, k: nat, lo: nat, hi: nat, maxfan: nat)
    requires k <= top && maxfan >= 1
    ensures AllPlain(KidTags(ownId, top, k, lo, hi, maxfan), DELIMITERS)
    decreases hi
  {
    hide Plain, TagOf, PathOf;
    if hi > lo {
      KidTagsPlain(ownId, top, k, lo, hi - 1, maxfan);
      TagPlain(ownId, PathOf(top, k, hi - 1, maxfan));
    }
  }

  /** An agent that is started with its children list reads its children's tags from it. */
  lemma ChildrenRead(ownId: int, top: nat, k: nat, n: nat, p: nat, maxfan: nat)
    requires k < top && maxfan >= 1
    ensures TokensOf(ChildrenOf(ownId, top, k, n, p, maxfan), DELIMITERS)
         == KidTags(ownId, top, k, KidsFrom(p, maxfan), KidsTo(n, p, maxfan), maxfan)
  {
    var lo, hi := KidsFrom(p, maxfan), KidsTo(n, p, maxfan);
    KidTagsPlain(ownId, top, k, lo, hi, maxfan);
    TokensOfList(KidTags(ownId, top, k, lo, hi, maxfan), DELIMITERS);
  }
}
