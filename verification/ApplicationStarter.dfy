/** Building the agent hierarchy: linked lists of agents, one per level, that are filled, numbered
    and tagged in place. */
module ApplicationStarter {
  import opened Arithmetic
  import opened DecimalStrings
  import opened Hierarchy
  import opened Options
  import opened Sequences
  import opened Tokens

  class AgentDetails {
    const port: int
    const host: string
    var applIds: string
    var tag: string
    var parent: string
    var children: string
    var nextAgent: AgentDetails?

    constructor (port: int, host: string)
      ensures this.port == port && this.host == host && nextAgent == null
      ensures applIds == "" && tag == "" && parent == "" && children == ""
    {
      this.port, this.host, nextAgent := port, host, null;
      applIds, tag, parent, children := "", "", "", "";
    }
  }

  /** The agents in `list` follow each other; the port numbers count up, so no agent occurs twice. */
  ghost predicate Chained(list: seq<AgentDetails>)
    reads list`nextAgent
  {
    && list != []
    && (forall i :: 0 <= i < |list| ==> list[i].port == list[0].port + i)
    && (forall i :: 0 <= i < |list| ==> list[i].nextAgent == if i + 1 < |list| then list[i + 1] else null)
  }

  class LevelInfo {
    var numberOfAgents: nat
    var agents: AgentDetails
    var nextLevel: LevelInfo?
    var prevLevel: LevelInfo?
    ghost var list: seq<AgentDetails>

    ghost predicate Valid()
      reads this`numberOfAgents, this`agents, this`list, list`nextAgent
    {
      Chained(list) && agents == list[0] && numberOfAgents == |list|
    }

    constructor (agent: AgentDetails, prevLevel: LevelInfo?)
      requires agent.nextAgent == null
      ensures Valid() && list == [agent] && nextLevel == null && this.prevLevel == prevLevel
    {
      numberOfAgents, agents, list := 1, agent, [agent];
      nextLevel, this.prevLevel := null, prevLevel;
    }
  }

  function Decs(ids: seq<int>): seq<string> {
    if ids == [] then [] else Decs(Init(ids)) + [Dec(Last(ids))]
  }

  /** The process ids an agent is given, as it is told them. */
  function ApplIds(ids: seq<int>): string {
    Listed(Decs(ids))
  }

  /** An agent can read its process ids from what it is told. */
  lemma ApplIdsRead(ids: seq<int>)
    ensures TokensOf(ApplIds(ids), ",") == Decs(ids)
    ensures |Decs(ids)| == |ids| && forall k :: 0 <= k < |ids| ==> Read(Decs(ids)[k]) == ids[k]
  {
    DecsPlain(ids);
    TokensOfList(Decs(ids), ",");
  }

  lemma {:induction false} DecsPlain(ids: seq<int>)
    ensures |Decs(ids)| == |ids| && AllPlain(Decs(ids), ",")
    ensures forall k :: 0 <= k < |ids| ==> Read(Decs(ids)[k]) == ids[k]
  {
    hide Dec, Read;
    if ids != [] {
      DecsPlain(Init(ids));
      DecPlain(Last(ids));
      DecHasNo(Last(ids), ',');
      DecReads(Last(ids));
    }
  }

  ghost predicate Holding(list: seq<AgentDetails>, groups: seq<seq<int>>)
    reads list`applIds
  {
    |list| == |groups| && forall i :: 0 <= i < |list| ==> list[i].applIds == ApplIds(groups[i])
  }

  lemma HoldingSnoc(list: seq<AgentDetails>, groups: seq<seq<int>>, agent: AgentDetails, group: seq<int>)
    requires Holding(list, groups) && agent.applIds == ApplIds(group)
    ensures Holding(list + [agent], groups + [group])
  {
  }

  lemma HoldingInit(list: seq<AgentDetails>, groups: seq<seq<int>>)
    requires Holding(list, groups) && list != []
    ensures groups != [] && Holding(Init(list), Init(groups)) && Last(list).applIds == ApplIds(Last(groups))
    ensures list == Init(list) + [Last(list)]
  {
  }

  lemma LastOnce(list: seq<AgentDetails>)
    requires Chained(list)
    ensures list != [] && Last(list) !in Init(list)
  {
    assert forall i :: 0 <= i < |list| - 1 ==> list[i].port < Last(list).port;
  }

  lemma OnlyOnce(list: seq<AgentDetails>, c: nat)
    requires Chained(list) && c < |list|
    ensures forall i :: 0 <= i < |list| && i != c ==> list[i] != list[c]
  {
    assert forall i :: 0 <= i < |list| && i != c ==> list[i].port != list[c].port;
  }

  lemma ApplIdsOne(id: int)
    ensures ApplIds([id]) == Dec(id)
  {
    hide Dec;
    assert Decs([id]) == [Dec(id)];
    ListedOne(Dec(id));
  }

  lemma ApplIdsSnoc(ids: seq<int>, id: int)
    ensures ApplIds(ids + [id]) == ApplIds(ids) + (if |ids| > 0 then "," else "") + Dec(id)
  {
    hide Dec, Listed;
    assert Init(ids + [id]) == ids;
    ListedSnoc(Decs(ids), Dec(id));
    DecsPlain(ids);
  }

  /** Agents that have not been given a place in the hierarchy yet. */
  ghost predicate Blank(list: seq<AgentDetails>)
    reads list`tag, list`parent, list`children
  {
    forall i :: 0 <= i < |list| ==> list[i].tag == "" && list[i].parent == "" && list[i].children == ""
  }

  class Starter {
    const hostname: string
    const ownId: int
    const localTag: string
    var nextPort: int

    constructor (hostname: string, ownId: int, localTag: string, localPort: int)
      ensures this.hostname == hostname && this.ownId == ownId && this.localTag == localTag && nextPort == localPort + 1
    {
      this.hostname, this.ownId, this.localTag, this.nextPort := hostname, ownId, localTag, localPort + 1;
    }

    /** Clustering has got as far as `groups`, the last of which `agent` holds. */
    ghost predicate Building(level: LevelInfo, agent: AgentDetails, entryCount: nat, groups: Groups)
      reads this`nextPort, level`numberOfAgents, level`agents, level`list
      reads level.list`nextAgent, level.list`applIds, level.list`tag, level.list`parent, level.list`children
    {
      && level.Valid() && agent == Last(level.list) && nextPort == agent.port + 1
      && Blank(level.list) && Holding(level.list, groups) && entryCount == |Last(groups)|
    }

    /** Starts the description of one more agent of a level. */
    method AppendAgent(level: LevelInfo, agent: AgentDetails) returns (next: AgentDetails)
      requires level.Valid() && agent == Last(level.list) && nextPort == agent.port + 1 && Blank(level.list)
      modifies this`nextPort, level`numberOfAgents, level`list, agent`nextAgent
      ensures level.Valid() && level.list == old(level.list) + [next] && Blank(level.list)
      ensures fresh(next) && nextPort == next.port + 1 && next.applIds == "" && next.host == hostname
    {
      next := new AgentDetails(nextPort, hostname);
      nextPort := nextPort + 1;
      agent.nextAgent := next;
      level.numberOfAgents := level.numberOfAgents + 1;
      level.list := level.list + [next];
    }

    /** Puts one process into the current agent, or into a new one. */
    method PlaceEntry(level: LevelInfo, agent0: AgentDetails, entryCount0: nat, id: int, clusterSize: nat,
                      ghost groups0: Groups)
        returns (agent: AgentDetails, entryCount: nat, ghost groups: Groups)
      requires Building(level, agent0, entryCount0, groups0)
      modifies this`nextPort, level`numberOfAgents, level`list, agent0`nextAgent, agent0`applIds
      ensures groups == Place(groups0, id, clusterSize) && Building(level, agent, entryCount, groups)
      ensures old(level.list) <= level.list && forall a :: a in level.list && a !in old(level.list) ==> fresh(a)
      ensures agent == agent0 || fresh(agent)
    {
      hide Holding, ApplIds, Chained, Dec;
      groups := Place(groups0, id, clusterSize);
      agent, entryCount := agent0, entryCount0 + 1;
      LastOnce(level.list);
      HoldingInit(level.list, groups0);
      if entryCount > clusterSize {
        agent := AppendAgent(level, agent);
        entryCount := 1;
        agent.applIds := agent.applIds + Dec(id);
        ApplIdsOne(id);
        HoldingSnoc(old(level.list), groups0, agent, [id]);
      } else {
        if entryCount > 1 {
          agent.applIds := agent.applIds + ",";
        }
        agent.applIds := agent.applIds + Dec(id);
        ApplIdsSnoc(Last(groups0), id);
        HoldingSnoc(Init(level.list), Init(groups0), agent, Last(groups));
      }
    }

    /** Clusters all processes in their order. */
    method ClusterAll(level: LevelInfo, agent0: AgentDetails, processes: seq<EntryData>, clusterSize: nat)
        returns (agent: AgentDetails, ghost entryCount: nat)
      requires Building(level, agent0, 0, [[]])
      modifies this`nextPort, level`numberOfAgents, level`list, agent0`nextAgent, agent0`applIds
      ensures Building(level, agent, entryCount, Clusters(Ids(processes), clusterSize))
      ensures old(level.list) <= level.list && forall a :: a in level.list && a !in old(level.list) ==> fresh(a)
    {
      hide Building, Clusters;
      var count := 0;
      ghost var groups: Groups := [[]];
      agent := agent0;
      NoneYet(clusterSize);
      for i := 0 to |processes|
        invariant groups == Clusters(Ids(processes[..i]), clusterSize) && Building(level, agent, count, groups)
        invariant old(level.list) <= level.list && forall a :: a in level.list && a !in old(level.list) ==> fresh(a)
        invariant agent == agent0 || fresh(agent)
      {
        agent, count, groups := PlaceEntry(level, agent, count, processes[i].id, clusterSize, groups);
        OneMoreProcess(processes, i, clusterSize);
      }
      assert processes[..|processes|] == processes;
      entryCount := count;
    }

    /** Clusters the processes of one host. */
    method ClusterHost(level: LevelInfo, agent0: AgentDetails, entryCount0: nat, ids: seq<int>, clusterSize: nat,
                       ghost groups0: Groups)
        returns (agent: AgentDetails, entryCount: nat, ghost groups: Groups)
      requires Building(level, agent0, entryCount0, groups0)
      modifies this`nextPort, level`numberOfAgents, level`list, agent0`nextAgent, agent0`applIds
      ensures groups == PlaceAll(groups0, ids, clusterSize) && Building(level, agent, entryCount, groups)
      ensures old(level.list) <= level.list && forall a :: a in level.list && a !in old(level.list) ==> fresh(a)
      ensures agent == agent0 || fresh(agent)
    {
      hide Building;
      agent, entryCount, groups := agent0, entryCount0, groups0;
      for i := 0 to |ids|
        invariant groups == PlaceAll(groups0, ids[..i], clusterSize) && Building(level, agent, entryCount, groups)
        invariant old(level.list) <= level.list && forall a :: a in level.list && a !in old(level.list) ==> fresh(a)
        invariant agent == agent0 || fresh(agent)
      {
        agent, entryCount, groups := PlaceEntry(level, agent, entryCount, ids[i], clusterSize, groups);
        PlaceAllSnoc(groups0, ids[..i], ids[i], clusterSize);
        assert ids[..i + 1] == ids[..i] + [ids[i]];
      }
      assert ids[..|ids|] == ids;
    }

    /** The next host starts with an agent of its own. */
    method NextHost(level: LevelInfo, agent0: AgentDetails, ghost entryCount0: nat, ghost groups0: Groups)
        returns (agent: AgentDetails, ghost groups: Groups)
      requires Building(level, agent0, entryCount0, groups0)
      modifies this`nextPort, level`numberOfAgents, level`list, agent0`nextAgent
      ensures groups == groups0 + [[]] && Building(level, agent, 0, groups)
      ensures fresh(agent) && old(level.list) <= level.list
      ensures forall a :: a in level.list && a !in old(level.list) ==> fresh(a)
    {
      hide Holding, Chained;
      groups := groups0 + [[]];
      agent := AppendAgent(level, agent0);
      NoApplIds();
      HoldingSnoc(old(level.list), groups0, agent, []);
    }

    /** Clusters host by host; the order of the hosts is left open. */
    method ClusterByHost(level: LevelInfo, agent0: AgentDetails, processes: seq<EntryData>, clusterSize: nat)
        returns (agent: AgentDetails, ghost entryCount: nat, ghost hosts: seq<string>)
      requires Building(level, agent0, 0, [[]])
      modifies this`nextPort, level`numberOfAgents, level`list, agent0`nextAgent, agent0`applIds
      ensures ListsHosts(hosts, processes)
      ensures Building(level, agent, entryCount, HostGroups(processes, hosts, clusterSize))
      ensures old(level.list) <= level.list && forall a :: a in level.list && a !in old(level.list) ==> fresh(a)
    {
      hide Building, HostGroups, PlaceAll, IdsOn, Nodes;
      NoHosts(processes, clusterSize);
      var apphosts := GroupByHost(processes);
      var count, rest, first := 0, apphosts.Keys, true;
      ghost var groups: Groups := [[]];
      agent, hosts := agent0, [];
      while rest != {}
        invariant Building(level, agent, count, groups) && first == (hosts == [])
        invariant groups == HostGroups(processes, hosts, clusterSize)
        invariant Distinct(hosts) && (forall h :: h in apphosts <==> h in rest || h in hosts)
        invariant (forall h :: h in hosts ==> h !in rest)
        invariant old(level.list) <= level.list && forall a :: a in level.list && a !in old(level.list) ==> fresh(a)
        invariant agent == agent0 || fresh(agent)
        decreases rest
      {
        var host :| host in rest;
        if !first {
          agent, groups := NextHost(level, agent, count, groups);
          count := 0;
        }
        AppendHost(processes, hosts, host, clusterSize);
        agent, count, groups := ClusterHost(level, agent, count, apphosts[host], clusterSize, groups);
        first, rest, hosts := false, rest - {host}, hosts + [host];
      }
      entryCount := count;
    }

    /** Puts a level on top of `level`. */
    method AddLevel(level: LevelInfo, maxfan: nat) returns (next: LevelInfo)
      requires maxfan >= 1 && level.Valid() && level.numberOfAgents > 1 && nextPort == Last(level.list).port + 1
      modifies this`nextPort, level`nextLevel
      ensures next.Valid() && |next.list| == Parents(|level.list|, maxfan) && Blank(next.list)
      ensures fresh(next) && forall a :: a in next.list ==> fresh(a)
      ensures next.prevLevel == level && level.nextLevel == next && next.nextLevel == null
      ensures next.list[0].port == old(nextPort) && nextPort == Last(next.list).port + 1
    {
      var numberOfAgentsInPrevLevel := level.numberOfAgents;
      var agent := new AgentDetails(nextPort, hostname);
      nextPort := nextPort + 1;
      next := new LevelInfo(agent, level);
      level.nextLevel := next;
      ParentsBetween(numberOfAgentsInPrevLevel, maxfan);
      if maxfan == 1 {
        return;
      }
      AddRest(next, agent, (numberOfAgentsInPrevLevel + maxfan - 1) / maxfan);
    }

    /** Adds agents to a level that has one until there are `count`. */
    method AddRest(level: LevelInfo, agent0: AgentDetails, count: nat)
      requires level.Valid() && level.list == [agent0] && nextPort == agent0.port + 1 && Blank(level.list) && count >= 1
      modifies this`nextPort, level`numberOfAgents, level`list, agent0`nextAgent
      ensures level.Valid() && |level.list| == count && Blank(level.list)
      ensures level.list[0] == agent0 && nextPort == Last(level.list).port + 1
      ensures forall a :: a in level.list ==> a == agent0 || fresh(a)
    {
      hide Chained;
      var agent := agent0;
      for i := 1 to count
        invariant level.Valid() && |level.list| == i && Blank(level.list)
        invariant agent == Last(level.list) && nextPort == agent.port + 1 && level.list[0] == agent0
        invariant agent == agent0 || fresh(agent)
        invariant forall a :: a in level.list ==> a == agent0 || fresh(a)
      {
        agent := AppendAgent(level, agent);
      }
    }

    /** Puts levels on top of each other until a single agent is left. */
    method AddLevels(level0: LevelInfo, maxfan: nat) returns (masterLevel: LevelInfo, ghost t: Tower)
      requires maxfan >= 1 && level0.Valid() && level0.prevLevel == null && level0.nextLevel == null
      requires nextPort == Last(level0.list).port + 1 && Blank(level0.list)
      modifies this`nextPort, level0`nextLevel
      ensures Sound(t) && Stacked(t) && NextLinks(t.levels) && t.n == |level0.list| && t.maxfan == maxfan
      ensures AllBlank(t.agents)
      ensures t.levels[0] == level0 && masterLevel == Last(t.levels) && |t.levels| == Height(t.n, maxfan) + 1
      ensures forall l :: l in t.levels ==> l == level0 || fresh(l)
      ensures forall a :: a in t.agents ==> a in level0.list || fresh(a)
    {
      hide Chained, Stacked, Height, Sound, NextLinks, AllBlank, Blank, Parents;
      LastOnce(level0.list);
      var level := level0;
      t := Tower([level0], [level0.list], (set a | a in level0.list), |level0.list|, maxfan);
      OneLevel(t);
      while level.numberOfAgents > 1
        invariant Sound(t) && Stacked(t) && NextLinks(t.levels) && t.n == |level0.list| && t.maxfan == maxfan
        invariant AllBlank(t.agents)
        invariant t.levels != [] && t.lists != [] && t.levels[0] == level0 && level == Last(t.levels)
        invariant Last(t.lists) == level.list && level.Valid() && level.list != []
        invariant nextPort == Last(level.list).port + 1
        invariant |t.levels| - 1 + Height(level.numberOfAgents, maxfan) == Height(t.n, maxfan)
        invariant forall l :: l in t.levels ==> l == level0 || fresh(l)
        invariant forall a :: a in t.agents ==> a in level0.list || fresh(a)
        decreases level.numberOfAgents
      {
        HeightStep(level.numberOfAgents, maxfan);
        assert level in t.levels;
        label Before:
        var next := AddLevel(level, maxfan);
        OneMoreLink@Before(t, next);
        OneMoreLevel(t, next);
        t := Above(t, next);
        level := next;
      }
      masterLevel := level;
      HeightDone(maxfan);
    }

    /** Gives one agent its place. */
    method TagChild(child: AgentDetails, parentTag: string, tagStr: string, ghost list: seq<AgentDetails>,
                    ghost h: Storey, ghost c: nat)
      requires c < |list| && child == list[c] && Chained(list) && TaggedTo(list, h, c)
      requires parentTag == ParentTagAt(h, c) && tagStr == TagAt(h, c)
      modifies child`tag, child`parent
      ensures TaggedTo(list, h, c + 1)
    {
      hide TagAt, ParentTagAt, Chained;
      OnlyOnce(list, c);
      child.parent := child.parent + parentTag;
      child.tag := child.tag + tagStr;
    }

    /** Gives one agent its children list. */
    method CloseParent(parent: AgentDetails, childrenTags: string, ghost list: seq<AgentDetails>, ghost h: Storey,
                       ghost n: nat, ghost p: nat)
      requires p < |list| && parent == list[p] && Chained(list) && ClosedTo(list, h, n, p)
      requires childrenTags == ChildrenAt(h, n, p)
      modifies parent`children
      ensures ClosedTo(list, h, n, p + 1)
    {
      hide ChildrenAt, Chained;
      OnlyOnce(list, p);
      parent.children := parent.children + childrenTags;
    }

    /** Gives the agents of one level their tags and parents, and the agents above their children. */
    method TagChildren(parents: LevelInfo, kids: LevelInfo, maxfan: nat, ghost h: Storey)
      requires parents.Valid() && kids.Valid() && Below(h) && h.maxfan == maxfan && maxfan >= 1
      requires (forall a :: a in kids.list ==> a !in parents.list) && |parents.list| == Parents(|kids.list|, maxfan)
      requires Tagged(parents.list, h.(k := h.k + 1)) && TaggedTo(kids.list, h, 0)
      requires ClosedTo(parents.list, h, |kids.list|, 0)
      modifies kids.list`tag, kids.list`parent, parents.list`children
      ensures TaggedTo(kids.list, h, |kids.list|) && ClosedTo(parents.list, h, |kids.list|, |parents.list|)
    {
      hide Chained, Tagged, TaggedTo, ClosedTo, TagAt, ParentTagAt, ChildrenAt, Parents, Up, Component, Below, SoFar,
        Dec;
      ghost var n := |kids.list|;
      var parent: AgentDetails?, child: AgentDetails? := parents.agents, kids.agents;
      var childrenCnt, childrenTags := 0, "";
      ghost var c, p := 0, 0;
      FirstKid(h);
      FirstOf(kids.list);
      FirstOf(parents.list);
      while child != null && parent != null
        invariant c <= n && p == Up(c, maxfan) && childrenCnt == Component(c, maxfan)
        invariant child == if c < n then kids.list[c] else null
        invariant parent == if p < |parents.list| then parents.list[p] else null
        invariant childrenTags == SoFar(h, c)
        invariant TaggedTo(kids.list, h, c) && ClosedTo(parents.list, h, n, p)
        invariant Tagged(parents.list, h.(k := h.k + 1))
        decreases n - c
      {
        NextKid(h, n, c);
        NextOf(kids.list, c);
        NextOf(parents.list, p);
        TaggedOf(parents.list, h.(k := h.k + 1), p);
        assert child in kids.list && parent in parents.list;
        var tagStr := parent.tag + ":" + Dec(childrenCnt);
        TagChild(child, parent.tag, tagStr, kids.list, h, c);
        childrenTags := childrenTags + tagStr;
        childrenCnt := childrenCnt + 1;
        if maxfan > 1 && childrenCnt == maxfan {
          childrenCnt := 0;
          CloseParent(parent, childrenTags, parents.list, h, n, p);
          childrenTags := "";
          parent := parent.nextAgent;
          p := p + 1;
        } else {
          childrenTags := childrenTags + ",";
        }
        child := child.nextAgent;
        c := c + 1;
      }
      LastKid(h, n, c);
      assert c == n;
      if parent != null {
        assert parent in parents.list;
        CloseParent(parent, childrenTags, parents.list, h, n, p);
      }
    }

    /** Gives the level below `level` its tags. */
    method TagLevelBelow(level: LevelInfo, maxfan: nat, ghost t: Tower, ghost k: nat)
      requires Sound(t) && Stacked(t) && Apart(t) && t.maxfan == maxfan
      requires 0 < k < |t.levels| && level == t.levels[k] && level.prevLevel != null
      requires PlacedFrom(t, ownId, localTag, k)
      modifies t.agents`tag, t.agents`parent, t.agents`children
      ensures PlacedFrom(t, ownId, localTag, k - 1)
    {
      hide Stacked, PlacedFrom, Tagged, TaggedTo, ClosedTo, Chained, Parents, Dec, TagOf;
      StackedMeans(t, k);
      StackedMeans(t, k - 1);
      PlacedMeans(t, ownId, localTag, k);
      ApartMeans(t, k - 1, k);
      hide Apart, Sound;
      label Before:
      TagChildren(level, level.prevLevel, maxfan, StoreyOf(t, ownId, k - 1));
      PlacedNext@Before(t, ownId, localTag, k);
    }

    /** Gives all agents their tags, from the topmost level down. */
    method AssignTags(masterLevel: LevelInfo, maxfan: nat, ghost t: Tower)
      requires Sound(t) && Stacked(t) && t.maxfan == maxfan && masterLevel == Last(t.levels) && |Last(t.lists)| == 1
      requires AllBlank(t.agents)
      modifies t.agents`tag, t.agents`parent, t.agents`children
      ensures Placed(t, ownId, localTag) && Last(t.lists)[0].tag == "fe[" + Dec(ownId) + "]:0"
    {
      hide Stacked, PlacedFrom, Chained, Apart, Dec, TagOf;
      var level: LevelInfo := masterLevel;
      ghost var k: nat := |t.levels| - 1;
      StackedMeans(t, k);
      AllApart(t);
      var master := level.agents;
      assert master == Last(t.lists)[0] && master in t.agents;
      master.tag := master.tag + (Numbered("fe", ownId) + ":" + Dec(0));
      master.parent := master.parent + Numbered(localTag, ownId);
      TopmostTag(ownId);
      PlacedTop(t, ownId, localTag);
      while level.prevLevel != null
        invariant k < |t.levels| && level == t.levels[k] && PlacedFrom(t, ownId, localTag, k)
        decreases k
      {
        StackedMeans(t, k);
        TagLevelBelow(level, maxfan, t, k);
        level := level.prevLevel;
        k := k - 1;
      }
      StackedMeans(t, k);
      MasterIs(t, ownId, localTag);
    }

    /** Clusters the processes onto analysis agents, in one go or host by host. */
    method ClusterProcesses(processes: seq<EntryData>, clusterSize: nat, forceLocalhost: bool)
        returns (level: LevelInfo, ghost hosts: seq<string>)
      modifies this`nextPort
      ensures fresh(level) && (forall a :: a in level.list ==> fresh(a))
      ensures level.Valid() && level.prevLevel == null && level.nextLevel == null && Blank(level.list)
      ensures level.list != [] && level.list[0].port == old(nextPort) && nextPort == Last(level.list).port + 1
      ensures !forceLocalhost ==> ListsHosts(hosts, processes)
      ensures Holding(level.list, if forceLocalhost then Clusters(Ids(processes), clusterSize)
                                  else HostGroups(processes, hosts, clusterSize))
    {
      hide Holding, Chained, Clusters, HostGroups, ListsHosts;
      var agent := new AgentDetails(nextPort, hostname);
      nextPort := nextPort + 1;
      level := new LevelInfo(agent, null);
      NoApplIds();
      OneHolds(agent);
      hosts := [];
      ghost var count;
      if forceLocalhost {
        agent, count := ClusterAll(level, agent, processes, clusterSize);
      } else {
        agent, count, hosts := ClusterByHost(level, agent, processes, clusterSize);
      }
    }

    /** Builds the whole hierarchy: analysis agents, levels on top of them, and every agent is told
        its place. */
    method ComputeAgentHierarchy(processes: seq<EntryData>, clusterSize: nat, forceLocalhost: bool, maxfan: nat)
        returns (masterLevel: LevelInfo, ghost t: Tower, ghost hosts: seq<string>)
      requires clusterSize >= 1 && maxfan >= 1
      modifies this`nextPort
      ensures Sound(t) && Stacked(t) && NextLinks(t.levels) && t.maxfan == maxfan
      ensures masterLevel == Last(t.levels) && |t.levels| == Height(t.n, maxfan) + 1
      ensures t.lists[0] != [] && t.lists[0][0].port == old(nextPort)
      ensures !forceLocalhost ==> ListsHosts(hosts, processes)
      ensures Holding(t.lists[0], if forceLocalhost then Clusters(Ids(processes), clusterSize)
                                  else HostGroups(processes, hosts, clusterSize))
      ensures Placed(t, ownId, localTag)
      ensures masterLevel.agents == Last(t.lists)[0] && masterLevel.agents.tag == "fe[" + Dec(ownId) + "]:0"
      ensures masterLevel.agents.parent == localTag + "[" + Dec(ownId) + "]"
    {
      hide Placed, Holding, Chained, Height, Clusters, HostGroups, ListsHosts, Stacked, NextLinks, AllBlank, Blank;
      var level;
      level, hosts := ClusterProcesses(processes, clusterSize, forceLocalhost);
      masterLevel, t := AddLevels(level, maxfan);
      StackedMeans(t, 0);
      StackedMeans(t, |t.levels| - 1);
      TopHasOne(t.n, maxfan, |t.levels| - 1);
      AssignTags(masterLevel, maxfan, t);
      MasterIs(t, ownId, localTag);
    }

    /** The frontend registers its one child before the hierarchy is built; the topmost agent then has
        the tag that was registered. */
    method RunAgents(processes: seq<EntryData>, clusterSize: nat, forceLocalhost: bool, maxfan: nat)
        returns (childTag: string, masterLevel: LevelInfo, ghost t: Tower, ghost hosts: seq<string>)
      requires clusterSize >= 1 && maxfan >= 1
      modifies this`nextPort
      ensures Sound(t) && Stacked(t) && Placed(t, ownId, localTag)
      ensures masterLevel.agents == Last(t.lists)[0] && |Last(t.lists)| == 1 && masterLevel.agents.tag == childTag
    {
      hide Placed, Holding, Height, Clusters, HostGroups, ListsHosts, Stacked, NextLinks, Dec;
      childTag := "fe[" + Dec(ownId) + "]:0";
      masterLevel, t, hosts := ComputeAgentHierarchy(processes, clusterSize, forceLocalhost, maxfan);
      MasterIs(t, ownId, localTag);
    }
  }

  lemma MasterIs(t: Tower, ownId: int, localTag: string)
    requires Placed(t, ownId, localTag)
    ensures |t.lists| > 0 && |Last(t.lists)| == 1 && Last(t.lists)[0].tag == "fe[" + Dec(ownId) + "]:0"
    ensures Last(t.lists)[0].parent == localTag + "[" + Dec(ownId) + "]"
  {
    FrontendTag(ownId);
    Regroup(localTag, "[", Dec(ownId));
    Regroup(localTag, "[" + Dec(ownId), "]");
    hide TagOf, Dec, Tagged, LevelsTagged, LevelsClosed;
  }

  lemma OneHolds(agent: AgentDetails)
    requires agent.applIds == ""
    ensures Holding([agent], [[]])
  {
  }

  lemma ApartMeans(t: Tower, j: nat, k: nat)
    requires Sound(t) && Apart(t) && j < k < |t.lists|
    ensures forall a :: a in t.lists[j] ==> a !in t.lists[k] && a in t.agents
    ensures forall a :: a in t.lists[k] ==> a in t.agents
  {
  }

  lemma TopmostTag(ownId: int)
    ensures TagOf(ownId, [0]) == Numbered("fe", ownId) + ":" + Dec(0)
  {
    assert Init([0]) == [];
  }

  lemma FirstOf(list: seq<AgentDetails>)
    requires Chained(list)
    ensures |list| >= 1
  {
  }

  lemma TaggedOf(list: seq<AgentDetails>, h: Storey, i: nat)
    requires Tagged(list, h) && i < |list|
    ensures list[i].tag == TagAt(h, i)
  {
  }

  lemma NextOf(list: seq<AgentDetails>, i: nat)
    requires Chained(list) && i < |list|
    ensures list[i].nextAgent == if i + 1 < |list| then list[i + 1] else null
  {
  }

  lemma HeightStep(n: nat, maxfan: nat)
    requires maxfan >= 1 && n > 1
    ensures 1 <= Parents(n, maxfan) < n && Height(n, maxfan) == 1 + Height(Parents(n, maxfan), maxfan)
  {
    ParentsBetween(n, maxfan);
  }

  lemma HeightDone(maxfan: nat)
    requires maxfan >= 1
    ensures Height(1, maxfan) == 0
  {
  }

  lemma OneLevel(t: Tower)
    requires t.maxfan >= 1 && |t.levels| == |t.lists| == 1 && t.levels[0].list == t.lists[0] && t.levels[0].Valid()
    requires |t.lists[0]| == t.n
    requires t.levels[0].prevLevel == null && t.levels[0].nextLevel == null
    requires Blank(t.lists[0]) && t.agents == set a | a in t.lists[0]
    ensures Sound(t) && Stacked(t) && NextLinks(t.levels) && AllBlank(t.agents)
  {
    assert LevelAt(t, 0);
  }

  // ----- levels -----------------------------------------------------------------------------

  /** The levels from the analysis agents to the topmost one and the agents on each of them, above
      `n` analysis agents. */
  datatype Tower = Tower(levels: seq<LevelInfo>, lists: seq<seq<AgentDetails>>, agents: set<AgentDetails>, n: nat,
                         maxfan: nat)

  /** The tower with one more level. */
  ghost function Above(t: Tower, next: LevelInfo): Tower
    reads next`list
  {
    Tower(t.levels + [next], t.lists + [next.list], t.agents + (set a | a in next.list), t.n, t.maxfan)
  }

  ghost predicate Sound(t: Tower) {
    && 0 < |t.levels| == |t.lists| && Distinct(t.levels) && t.maxfan >= 1
    && forall k, i :: 0 <= k < |t.lists| && 0 <= i < |t.lists[k]| ==> t.lists[k][i] in t.agents
  }

  /** The size of a level, its link to the level below, and port numbers that count on from there. */
  ghost predicate LevelAt(t: Tower, k: nat)
    requires Sound(t) && k < |t.levels|
    reads t.levels`list, t.levels`numberOfAgents, t.levels`agents, t.levels`prevLevel, t.lists[k]`nextAgent
  {
    var l := t.levels[k];
    && l.list == t.lists[k] && l.Valid() && |l.list| == Size(t.n, t.maxfan, k)
    && l.prevLevel == (if k > 0 then t.levels[k - 1] else null)
    && (k > 0 ==> t.lists[k - 1] != [] && l.list[0].port == Last(t.lists[k - 1]).port + 1)
  }

  ghost predicate Stacked(t: Tower)
    reads t.levels`list, t.levels`numberOfAgents, t.levels`agents, t.levels`prevLevel, t.agents`nextAgent
  {
    Sound(t) && forall k {:trigger LevelAt(t, k)} :: 0 <= k < |t.levels| ==> LevelAt(t, k)
  }

  /** The links upward. */
  ghost predicate NextLinks(levels: seq<LevelInfo>)
    reads levels`nextLevel
  {
    forall k :: 0 <= k < |levels| ==> levels[k].nextLevel == if k + 1 < |levels| then levels[k + 1] else null
  }

  lemma StackedMeans(t: Tower, k: nat)
    requires Stacked(t) && k < |t.levels|
    ensures t.lists[k] != [] && t.levels[k].list == t.lists[k] && t.levels[k].Valid()
    ensures |t.lists[k]| == Size(t.n, t.maxfan, k)
    ensures t.levels[k].prevLevel == (if k > 0 then t.levels[k - 1] else null)
    ensures k > 0 ==> t.lists[k - 1] != [] && t.lists[k][0].port == Last(t.lists[k - 1]).port + 1
  {
    assert LevelAt(t, k);
  }

  lemma OneMoreLevel(t: Tower, next: LevelInfo)
    requires Sound(t) && Stacked(t) && next.Valid() && next !in t.levels && Last(t.lists) != []
    requires |next.list| == Parents(|Last(t.lists)|, t.maxfan) && next.list[0].port == Last(Last(t.lists)).port + 1
    requires next.prevLevel == Last(t.levels) && AllBlank(t.agents) && Blank(next.list)
    ensures Stacked(Above(t, next)) && Sound(Above(t, next)) && AllBlank(Above(t, next).agents)
  {
    hide Chained;
    var t' := Above(t, next);
    StackedMeans(t, |t.levels| - 1);
    forall k {:trigger LevelAt(t', k)} | 0 <= k < |t'.levels|
      ensures LevelAt(t', k)
    {
      if k < |t.levels| {
        StackedMeans(t, k);
      }
    }
  }

  twostate lemma OneMoreLink(t: Tower, new next: LevelInfo)
    requires Sound(t) && old(NextLinks(t.levels)) && Last(t.levels).nextLevel == next && next.nextLevel == null
    requires forall l :: l in t.levels && l != Last(t.levels) ==> unchanged(l`nextLevel)
    ensures NextLinks(t.levels + [next])
  {
    forall k | 0 <= k < |t.levels| - 1
      ensures t.levels[k].nextLevel == t.levels[k + 1]
    {
      assert t.levels[k] in t.levels && t.levels[k] != Last(t.levels);
      assert old(t.levels[k].nextLevel) == t.levels[k + 1];
    }
  }

  ghost predicate AllBlank(agents: set<AgentDetails>)
    reads agents`tag, agents`parent, agents`children
  {
    forall a :: a in agents ==> a.tag == "" && a.parent == "" && a.children == ""
  }

  // ----- tags -------------------------------------------------------------------------------

  /** Which agents of which hierarchy the tags are for: level `k` of a hierarchy up to level `top`. */
  datatype Storey = Storey(ownId: int, top: nat, k: nat, maxfan: nat)

  ghost predicate Below(h: Storey) {
    h.maxfan >= 1 && h.k < h.top
  }

  ghost function TagAt(h: Storey, i: nat): string {
    if h.maxfan >= 1 && h.k <= h.top then Tag(h.ownId, h.top, h.k, i, h.maxfan) else ""
  }

  /** The tag of the parent of agent `i`. */
  ghost function ParentTagAt(h: Storey, i: nat): string {
    if Below(h) then Tag(h.ownId, h.top, h.k + 1, Up(i, h.maxfan), h.maxfan) else ""
  }

  /** The children list of agent `p` of the level above `n` agents. */
  ghost function ChildrenAt(h: Storey, n: nat, p: nat): string {
    if Below(h) then ChildrenOf(h.ownId, h.top, h.k, n, p, h.maxfan) else ""
  }

  ghost predicate Tagged(list: seq<AgentDetails>, h: Storey)
    reads list`tag
  {
    forall i {:trigger list[i]} :: 0 <= i < |list| ==> list[i].tag == TagAt(h, i)
  }

  /** The first `c` agents have their tags and parents, the others have not. */
  ghost predicate TaggedTo(list: seq<AgentDetails>, h: Storey, c: nat)
    reads list`tag, list`parent
  {
    && (forall i {:trigger list[i]} :: 0 <= i < c && i < |list| ==>
          list[i].tag == TagAt(h, i) && list[i].parent == ParentTagAt(h, i))
    && (forall i {:trigger list[i]} :: c <= i < |list| ==> list[i].tag == "" && list[i].parent == "")
  }

  /** The first `p` agents have their children lists, the others have not. */
  ghost predicate ClosedTo(list: seq<AgentDetails>, h: Storey, n: nat, p: nat)
    reads list`children
  {
    && (forall q {:trigger list[q]} :: 0 <= q < p && q < |list| ==> list[q].children == ChildrenAt(h, n, q))
    && (forall q {:trigger list[q]} :: p <= q < |list| ==> list[q].children == "")
  }

  ghost function StoreyOf(t: Tower, ownId: int, k: nat): Storey {
    Storey(ownId, if |t.levels| > 0 then |t.levels| - 1 else 0, k, t.maxfan)
  }

  /** The agents of level `k` have their tags and parents, or have not yet. */
  ghost predicate LevelTagged(t: Tower, ownId: int, k: nat, done: bool)
    requires k < |t.lists|
    reads t.lists[k]`tag, t.lists[k]`parent
  {
    TaggedTo(t.lists[k], StoreyOf(t, ownId, k), if done then |t.lists[k]| else 0)
  }

  /** The agents of level `k` have their children lists, or have not yet. */
  ghost predicate LevelClosed(t: Tower, ownId: int, k: nat, done: bool)
    requires 0 < k < |t.lists|
    reads t.lists[k]`children
  {
    ClosedTo(t.lists[k], StoreyOf(t, ownId, k - 1), |t.lists[k - 1]|, if done then |t.lists[k]| else 0)
  }

  ghost predicate Apart(t: Tower) {
    forall j, k, a :: 0 <= j < k < |t.lists| && a in t.lists[j] ==> a !in t.lists[k]
  }

  lemma {:induction false} PortsGrow(t: Tower, j: nat, k: nat)
    requires Stacked(t) && j < k < |t.levels|
    ensures t.lists[j] != [] && t.lists[k] != [] && Last(t.lists[j]).port < t.lists[k][0].port
  {
    StackedMeans(t, j);
    StackedMeans(t, k);
    if j < k - 1 {
      StackedMeans(t, k - 1);
      PortsGrow(t, j, k - 1);
    }
  }

  lemma AllApart(t: Tower)
    requires Sound(t) && Stacked(t)
    ensures Apart(t)
  {
    hide Stacked;
    forall j, k, a | 0 <= j < k < |t.lists| && a in t.lists[j]
      ensures a !in t.lists[k]
    {
      StackedMeans(t, j);
      StackedMeans(t, k);
      PortsGrow(t, j, k);
      assert a.port <= Last(t.lists[j]).port;
      assert forall i :: 0 <= i < |t.lists[k]| ==> t.lists[k][i].port >= t.lists[k][0].port;
    }
  }

  ghost predicate LevelsTagged(t: Tower, ownId: int, lo: nat, hi: nat, done: bool)
    requires Sound(t) && hi <= |t.lists|
    reads t.agents`tag, t.agents`parent
  {
    forall k {:trigger LevelTagged(t, ownId, k, done)} :: lo <= k < hi ==> LevelTagged(t, ownId, k, done)
  }

  ghost predicate LevelsClosed(t: Tower, ownId: int, lo: nat, hi: nat, done: bool)
    requires Sound(t) && 0 < lo && hi <= |t.lists|
    reads t.agents`children
  {
    forall k {:trigger LevelClosed(t, ownId, k, done)} :: lo <= k < hi ==> LevelClosed(t, ownId, k, done)
  }

  ghost predicate Childless(list: seq<AgentDetails>)
    reads list`children
  {
    forall i :: 0 <= i < |list| ==> list[i].children == ""
  }

  ghost predicate MasterPlaced(list: seq<AgentDetails>, ownId: int, localTag: string)
    reads list`tag, list`parent
  {
    |list| == 1 && list[0].tag == TagOf(ownId, [0]) && list[0].parent == Numbered(localTag, ownId)
  }

  /** From level `k` up, every agent has its tag and its parent's tag, and the levels above that
      also have the lists of their children's tags. */
  ghost predicate PlacedFrom(t: Tower, ownId: int, localTag: string, k: nat)
    reads t.agents`tag, t.agents`parent, t.agents`children
  {
    && Sound(t) && k < |t.lists|
    && Tagged(t.lists[k], StoreyOf(t, ownId, k))
    && MasterPlaced(Last(t.lists), ownId, localTag) && Childless(t.lists[0])
    && LevelsTagged(t, ownId, k, |t.lists| - 1, true) && LevelsTagged(t, ownId, 0, k, false)
    && LevelsClosed(t, ownId, k + 1, |t.lists|, true) && LevelsClosed(t, ownId, 1, k + 1, false)
  }

  /** Every agent has its place: its tag, its parent's tag, and the list of its children's tags. */
  ghost predicate Placed(t: Tower, ownId: int, localTag: string)
    reads t.agents`tag, t.agents`parent, t.agents`children
  {
    PlacedFrom(t, ownId, localTag, 0)
  }

  lemma PlacedMeans(t: Tower, ownId: int, localTag: string, k: nat)
    requires PlacedFrom(t, ownId, localTag, k) && k > 0
    ensures Sound(t) && Below(StoreyOf(t, ownId, k - 1)) && StoreyOf(t, ownId, k - 1).(k := k) == StoreyOf(t, ownId, k)
    ensures Tagged(t.lists[k], StoreyOf(t, ownId, k)) && TaggedTo(t.lists[k - 1], StoreyOf(t, ownId, k - 1), 0)
    ensures ClosedTo(t.lists[k], StoreyOf(t, ownId, k - 1), |t.lists[k - 1]|, 0)
  {
    assert LevelTagged(t, ownId, k - 1, false) && LevelClosed(t, ownId, k, false);
  }

  /** At first only the topmost agent has a tag. */
  lemma PlacedTop(t: Tower, ownId: int, localTag: string)
    requires Sound(t) && Apart(t) && MasterPlaced(Last(t.lists), ownId, localTag)
    requires forall a :: a in t.agents ==> a.children == "" && (a != Last(t.lists)[0] ==> a.tag == "" && a.parent == "")
    ensures PlacedFrom(t, ownId, localTag, |t.lists| - 1)
  {
    var top := |t.lists| - 1;
    assert PathOf(top, top, 0, t.maxfan) == [0];
    forall j {:trigger LevelTagged(t, ownId, j, false)} | 0 <= j < top
      ensures LevelTagged(t, ownId, j, false)
    {
      assert Last(t.lists)[0] in t.lists[top];
      assert forall i :: 0 <= i < |t.lists[j]| ==> t.lists[j][i] != Last(t.lists)[0];
    }
  }

  lemma AllTagged(t: Tower, ownId: int, k: nat)
    requires k < |t.lists| && LevelTagged(t, ownId, k, true)
    ensures Tagged(t.lists[k], StoreyOf(t, ownId, k))
  {
  }

  twostate lemma TagsKept(t: Tower, new ownId: int, new lo: nat, new hi: nat, new hi0: nat, new done: bool, new k: nat)
    requires Sound(t) && Apart(t) && hi <= hi0 <= |t.lists| && k < |t.lists| && !(lo <= k < hi)
    requires old(LevelsTagged(t, ownId, lo, hi0, done))
    requires forall a :: a in t.agents && a !in t.lists[k] ==> unchanged(a`tag, a`parent)
    ensures LevelsTagged(t, ownId, lo, hi, done)
  {
    hide TaggedTo;
    forall j {:trigger LevelTagged(t, ownId, j, done)} | lo <= j < hi
      ensures LevelTagged(t, ownId, j, done)
    {
      assert old(LevelTagged(t, ownId, j, done));
      assert forall a :: a in t.lists[j] ==> a in t.agents && a !in t.lists[k];
    }
  }

  twostate lemma ChildrenKept(t: Tower, new ownId: int, new lo: nat, new hi: nat, new hi0: nat, new done: bool,
                              new k: nat)
    requires Sound(t) && Apart(t) && 0 < lo && hi <= hi0 <= |t.lists| && k < |t.lists| && !(lo <= k < hi)
    requires old(LevelsClosed(t, ownId, lo, hi0, done))
    requires forall a :: a in t.agents && a !in t.lists[k] ==> unchanged(a`children)
    ensures LevelsClosed(t, ownId, lo, hi, done)
  {
    hide ClosedTo;
    forall j {:trigger LevelClosed(t, ownId, j, done)} | lo <= j < hi
      ensures LevelClosed(t, ownId, j, done)
    {
      assert old(LevelClosed(t, ownId, j, done));
      assert forall a :: a in t.lists[j] ==> a in t.agents && a !in t.lists[k];
    }
  }

  lemma WithLevel(t: Tower, ownId: int, k: nat)
    requires Sound(t) && 0 < k < |t.lists|
    requires LevelsTagged(t, ownId, k, |t.lists| - 1, true) && LevelTagged(t, ownId, k - 1, true)
    requires LevelsClosed(t, ownId, k + 1, |t.lists|, true) && LevelClosed(t, ownId, k, true)
    ensures LevelsTagged(t, ownId, k - 1, |t.lists| - 1, true) && LevelsClosed(t, ownId, k, |t.lists|, true)
  {
    hide LevelTagged, LevelClosed;
  }

  twostate lemma PlacedNext(t: Tower, new ownId: int, new localTag: string, new k: nat)
    requires Sound(t) && Apart(t) && 0 < k < |t.lists| && old(PlacedFrom(t, ownId, localTag, k))
    requires LevelTagged(t, ownId, k - 1, true) && LevelClosed(t, ownId, k, true)
    requires forall a :: a in t.agents && a !in t.lists[k - 1] ==> unchanged(a`tag, a`parent)
    requires forall a :: a in t.agents && a !in t.lists[k] ==> unchanged(a`children)
    ensures PlacedFrom(t, ownId, localTag, k - 1)
  {
    hide LevelsTagged, LevelsClosed, LevelTagged, LevelClosed, Tagged, Apart, TagOf, Numbered;
    AllTagged(t, ownId, k - 1);
    ApartMeans(t, 0, k);
    if k - 1 < |t.lists| - 1 {
      ApartMeans(t, k - 1, |t.lists| - 1);
    }
    TagsKept(t, ownId, k, |t.lists| - 1, |t.lists| - 1, true, k - 1);
    TagsKept(t, ownId, 0, k - 1, k, false, k - 1);
    ChildrenKept(t, ownId, k + 1, |t.lists|, |t.lists|, true, k);
    ChildrenKept(t, ownId, 1, k, k + 1, false, k);
    WithLevel(t, ownId, k);
    assert Last(t.lists)[0] in t.agents && Last(t.lists)[0] in Last(t.lists);
  }

  /** The children list collected for the current parent when `c` agents have their tags. */
  ghost function SoFar(h: Storey, c: nat): string {
    if Below(h) then Commas(KidTags(h.ownId, h.top, h.k, KidsFrom(Up(c, h.maxfan), h.maxfan), c, h.maxfan)) else ""
  }

  lemma FirstKid(h: Storey)
    requires Below(h)
    ensures Up(0, h.maxfan) == Component(0, h.maxfan) == 0 && SoFar(h, 0) == ""
  {
  }

  /** One more child: either it completes its parent's set of children, or the list goes on. */
  lemma NextKid(h: Storey, n: nat, c: nat)
    requires Below(h) && c < n
    ensures var u, tag := Up(c, h.maxfan), TagAt(h, c);
            && u < Parents(n, h.maxfan)
            && ParentTagAt(h, c) == TagAt(h.(k := h.k + 1), u)
            && tag == TagAt(h.(k := h.k + 1), u) + ":" + Dec(Component(c, h.maxfan))
            && if h.maxfan > 1 && Component(c, h.maxfan) + 1 == h.maxfan then
                 && Up(c + 1, h.maxfan) == u + 1 && Component(c + 1, h.maxfan) == 0
                 && ChildrenAt(h, n, u) == SoFar(h, c) + tag && SoFar(h, c + 1) == ""
               else
                 && Up(c + 1, h.maxfan) == u && Component(c + 1, h.maxfan) == Component(c, h.maxfan) + 1
                 && SoFar(h, c + 1) == SoFar(h, c) + tag + ","
  {
    hide Parents, Dec, KidTags, Tag, TagOf;
    UpBelow(n, h.maxfan, c);
    ChildTag(h, c);
    NextPlace(c, h.maxfan);
    hide Up, Component, KidsFrom;
    KidTagsGrow(h, KidsFrom(Up(c, h.maxfan), h.maxfan), c);
    KidTagsGrow(h, c + 1, c);
  }

  lemma KidTagsGrow(h: Storey, lo: nat, c: nat)
    requires Below(h)
    ensures var tags := KidTags(h.ownId, h.top, h.k, lo, c + 1, h.maxfan);
            if lo <= c then
              && Commas(tags) == Commas(KidTags(h.ownId, h.top, h.k, lo, c, h.maxfan)) + TagAt(h, c) + ","
              && Listed(tags) == Commas(KidTags(h.ownId, h.top, h.k, lo, c, h.maxfan)) + TagAt(h, c)
            else tags == []
  {
    hide Tag;
    if lo <= c {
      var tags := KidTags(h.ownId, h.top, h.k, lo, c, h.maxfan);
      assert Init(tags + [TagAt(h, c)]) == tags;
    }
  }

  lemma ChildTag(h: Storey, c: nat)
    requires Below(h)
    ensures TagAt(h, c) == TagAt(h.(k := h.k + 1), Up(c, h.maxfan)) + ":" + Dec(Component(c, h.maxfan))
  {
    hide Dec, Up, Component;
    var above := PathOf(h.top, h.k + 1, Up(c, h.maxfan), h.maxfan);
    assert Init(above + [Component(c, h.maxfan)]) == above;
  }

  lemma LastKid(h: Storey, n: nat, c: nat)
    requires Below(h) && n >= 1
    ensures c < n ==> Up(c, h.maxfan) < Parents(n, h.maxfan)
    ensures var u := Up(n, h.maxfan);
            && u <= Parents(n, h.maxfan) <= u + 1
            && (u < Parents(n, h.maxfan) ==> ChildrenAt(h, n, u) == SoFar(h, n))
  {
    hide Parents, KidTags;
    if c < n {
      UpBelow(n, h.maxfan, c);
    }
    BehindLast(n, h.maxfan);
  }

  lemma NoneYet(clusterSize: nat)
    ensures Clusters(Ids([]), clusterSize) == [[]]
  {
  }

  lemma OneMoreProcess(processes: seq<EntryData>, i: nat, clusterSize: nat)
    requires i < |processes|
    ensures Clusters(Ids(processes[..i + 1]), clusterSize)
         == Place(Clusters(Ids(processes[..i]), clusterSize), processes[i].id, clusterSize)
  {
    assert Init(processes[..i + 1]) == processes[..i];
    PlaceAllSnoc([[]], Ids(processes[..i]), processes[i].id, clusterSize);
  }

  lemma NoApplIds()
    ensures ApplIds([]) == ""
  {
  }

  lemma NoHosts(processes: seq<EntryData>, clusterSize: nat)
    ensures HostGroups(processes, [], clusterSize) == [[]]
  {
  }

  /** Adding a host adds its clusters. */
  lemma AppendHost(processes: seq<EntryData>, hosts: seq<string>, host: string, clusterSize: nat)
    ensures HostGroups(processes, hosts + [host], clusterSize)
         == PlaceAll(if hosts == [] then HostGroups(processes, hosts, clusterSize)
                     else HostGroups(processes, hosts, clusterSize) + [[]],
                     IdsOn(processes, host), clusterSize)
  {
    assert Init(hosts + [host]) == hosts;
    PlaceAllSuffix(HostClusters(processes, hosts, clusterSize), [[]], IdsOn(processes, host), clusterSize);
  }

  /** Sorts the processes by host. */
  method GroupByHost(processes: seq<EntryData>) returns (apphosts: map<string, seq<int>>)
    ensures apphosts.Keys == Nodes(processes)
    ensures forall h :: h in apphosts ==> apphosts[h] == IdsOn(processes, h)
  {
    hide IdsOn, Nodes;
    apphosts := map[];
    NoNodes();
    for i := 0 to |processes|
      invariant apphosts.Keys == Nodes(processes[..i])
      invariant forall h :: h in apphosts ==> apphosts[h] == IdsOn(processes[..i], h)
    {
      var entry := processes[i];
      OneMoreEntry(processes, i);
      apphosts := apphosts[entry.node := (if entry.node in apphosts then apphosts[entry.node] else []) + [entry.id]];
    }
    assert processes[..|processes|] == processes;
  }

  lemma NoNodes()
    ensures Nodes([]) == {}
  {
  }

  lemma OneMoreEntry(processes: seq<EntryData>, i: nat)
    requires i < |processes|
    ensures Nodes(processes[..i + 1]) == Nodes(processes[..i]) + {processes[i].node}
    ensures forall h ::
              IdsOn(processes[..i + 1], h) ==
              IdsOn(processes[..i], h) + if processes[i].node == h then [processes[i].id] else []
    ensures processes[i].node !in Nodes(processes[..i]) ==> IdsOn(processes[..i], processes[i].node) == []
  {
    assert Init(processes[..i + 1]) == processes[..i];
    HostHasIds(processes[..i], processes[i].node);
  }

  // ----- what the agents of a finished hierarchy know ---------------------------------------

  lemma AgentPlaced(t: Tower, ownId: int, localTag: string, k: nat, i: nat)
    requires Placed(t, ownId, localTag) && k < |t.lists| && i < |t.lists[k]|
    ensures Sound(t) && |Last(t.lists)| == 1 && t.lists[k][i].tag == TagAt(StoreyOf(t, ownId, k), i)
    ensures k < |t.lists| - 1 ==> t.lists[k][i].parent == ParentTagAt(StoreyOf(t, ownId, k), i)
    ensures k == |t.lists| - 1 ==> t.lists[k][i].parent == Numbered(localTag, ownId)
    ensures k > 0 ==> t.lists[k][i].children == ChildrenAt(StoreyOf(t, ownId, k - 1), |t.lists[k - 1]|, i)
  {
    hide TagAt, ParentTagAt, ChildrenAt, TagOf, Tag, Numbered, StoreyOf;
    assert k < |t.lists| - 1 ==> LevelTagged(t, ownId, k, true);
    assert k > 0 ==> LevelClosed(t, ownId, k, true);
    MasterTag(t, ownId);
  }

  lemma MasterTag(t: Tower, ownId: int)
    requires Sound(t)
    ensures TagAt(StoreyOf(t, ownId, |t.lists| - 1), 0) == TagOf(ownId, [0])
  {
  }

  /** Every agent's parent really is the agent it hangs below, and is also what the graph of the
      agents reads off its tag. */
  lemma AgentKnowsParent(t: Tower, ownId: int, localTag: string, k: nat, i: nat)
    requires Sound(t) && Stacked(t) && Placed(t, ownId, localTag) && k < |t.lists| && i < |t.lists[k]|
    ensures t.lists[k][i].tag == Tag(ownId, |t.lists| - 1, k, i, t.maxfan)
    ensures k + 1 < |t.lists| ==>
              && Up(i, t.maxfan) < |t.lists[k + 1]| && t.lists[k][i].parent == t.lists[k + 1][Up(i, t.maxfan)].tag
              && ParentOf(t.lists[k][i].tag) == Some(t.lists[k][i].parent)
              && t.lists[k][i].tag == t.lists[k][i].parent + ":" + Dec(if t.maxfan == 1 then i else i % t.maxfan)
    ensures k + 1 == |t.lists| ==>
              i == 0 && (ParentOf(t.lists[k][i].tag) == Some(t.lists[k][i].parent) <==> localTag == "fe")
  {
    hide Placed, Stacked, Tag, TagOf, ParentOf, Up, Parents, Size, Numbered, Dec;
    var top := |t.lists| - 1;
    AgentPlaced(t, ownId, localTag, k, i);
    if k < top {
      TagParent(ownId, top, k, i, t.maxfan);
      StackedMeans(t, k);
      StackedMeans(t, k + 1);
      NextSize(t, k);
      UpBelow(|t.lists[k]|, t.maxfan, i);
      AgentPlaced(t, ownId, localTag, k + 1, Up(i, t.maxfan));
      TagBelow(ownId, top, k, i, t.maxfan);
    } else {
      MasterTag(t, ownId);
      TopParent(ownId, localTag);
    }
  }

  lemma NextSize(t: Tower, k: nat)
    requires Sound(t) && Stacked(t) && k + 1 < |t.lists|
    ensures |t.lists[k + 1]| == Parents(|t.lists[k]|, t.maxfan)
  {
    StackedMeans(t, k);
    StackedMeans(t, k + 1);
  }

  /** No two agents share a tag or a port. */
  lemma AgentsDistinct(t: Tower, ownId: int, localTag: string, k: nat, i: nat, k': nat, i': nat)
    requires Sound(t) && Stacked(t) && Placed(t, ownId, localTag)
    requires k < |t.lists| && i < |t.lists[k]| && k' < |t.lists| && i' < |t.lists[k']| && (k != k' || i != i')
    ensures t.lists[k][i].tag != t.lists[k'][i'].tag && t.lists[k][i].port != t.lists[k'][i'].port
  {
    hide *;
    InTower(t, ownId, localTag, k, i);
    InTower(t, ownId, localTag, k', i');
    AgentKnowsParent(t, ownId, localTag, k, i);
    AgentKnowsParent(t, ownId, localTag, k', i');
    TagsUnique(ownId, t.n, t.maxfan, |t.lists| - 1, k, i, k', i');
    PortsDistinct(t, k, i, k', i');
  }

  lemma InTower(t: Tower, ownId: int, localTag: string, k: nat, i: nat)
    requires Sound(t) && Stacked(t) && Placed(t, ownId, localTag) && k < |t.lists| && i < |t.lists[k]|
    ensures t.maxfan >= 1 && At(t.n, t.maxfan, |t.lists| - 1, k, i)
  {
    hide Stacked, LevelsTagged, LevelsClosed, Size;
    StackedMeans(t, k);
    StackedMeans(t, |t.lists| - 1);
  }

  lemma PortsDistinct(t: Tower, k: nat, i: nat, k': nat, i': nat)
    requires Sound(t) && Stacked(t)
    requires k < |t.lists| && i < |t.lists[k]| && k' < |t.lists| && i' < |t.lists[k']| && (k != k' || i != i')
    ensures t.lists[k][i].port != t.lists[k'][i'].port
  {
    hide Stacked, Size;
    StackedMeans(t, k);
    StackedMeans(t, k');
    if k < k' {
      PortsGrow(t, k, k');
    } else if k' < k {
      PortsGrow(t, k', k);
    }
  }

  lemma {:induction false} KidTagsAre(h: Storey, lo: nat, hi: nat)
    requires Below(h) && lo <= hi
    ensures var tags := KidTags(h.ownId, h.top, h.k, lo, hi, h.maxfan);
            |tags| == hi - lo && forall i :: lo <= i < hi ==> tags[i - lo] == TagAt(h, i)
    decreases hi
  {
    hide Tag;
    if lo < hi {
      KidTagsAre(h, lo, hi - 1);
    }
  }

  /** What an agent reads from its children list are the tags of the agents below it, in order. */
  lemma AgentKnowsChildren(t: Tower, ownId: int, localTag: string, k: nat, p: nat)
    requires Sound(t) && Stacked(t) && Placed(t, ownId, localTag) && 0 < k < |t.lists| && p < |t.lists[k]|
    ensures var kids := t.lists[k - 1];
            var lo, hi := KidsFrom(p, t.maxfan), KidsTo(|kids|, p, t.maxfan);
            var tags := TokensOf(t.lists[k][p].children, DELIMITERS);
            && lo < hi <= |kids| && |tags| == hi - lo && (t.maxfan > 1 ==> |tags| <= t.maxfan)
            && (forall i :: lo <= i < hi ==> tags[i - lo] == kids[i].tag)
  {
    hide Placed, Stacked, Tag, TokensOf, Parents, KidsFrom, KidsTo, ChildrenOf, KidTags;
    var h := StoreyOf(t, ownId, k - 1);
    var n := |t.lists[k - 1]|;
    AgentPlaced(t, ownId, localTag, k, p);
    StackedMeans(t, k - 1);
    NextSize(t, k - 1);
    KidsCount(n, p, t.maxfan);
    KidsEnd(n, p, t.maxfan);
    ChildrenRead(ownId, h.top, k - 1, n, p, t.maxfan);
    var lo, hi := KidsFrom(p, t.maxfan), KidsTo(n, p, t.maxfan);
    KidTagsAre(h, lo, hi);
    var kids, tags := t.lists[k - 1], TokensOf(t.lists[k][p].children, DELIMITERS);
    forall i | lo <= i < hi
      ensures tags[i - lo] == kids[i].tag
    {
      AgentPlaced(t, ownId, localTag, k - 1, i);
    }
  }

  lemma KidsEnd(n: nat, p: nat, maxfan: nat)
    ensures KidsTo(n, p, maxfan) <= n
  {
  }
}
