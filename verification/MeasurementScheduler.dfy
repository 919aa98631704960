/** Submitting measurement requests round by round: PAPI counters come in sets that cannot be
    measured together, and a burst repeats the whole schedule. */
module MeasurementScheduler {
  import opened Arithmetic
  import opened Sequences
  import opened SortedSets

  type Metric = int

  /** How Score-P can measure a metric: in one of the PAPI sets, at any time, or not at all. */
  datatype Group = Papi(papiSet: nat) | Anytime | Unsupported

  datatype GatherInfo = AllInfoGathered | NotAllInfoGathered

  /** The metrics of `ms` in group `g`, in order. */
  ghost function OfGroup(groupOf: Metric -> Group, ms: seq<Metric>, g: Group): seq<Metric> {
    if ms == [] then []
    else OfGroup(groupOf, Init(ms), g) + if groupOf(Last(ms)) == g then [Last(ms)] else []
  }

  lemma OfGroupSnoc(groupOf: Metric -> Group, ms: seq<Metric>, m: Metric, g: Group)
    ensures OfGroup(groupOf, ms + [m], g) == OfGroup(groupOf, ms, g) + if groupOf(m) == g then [m] else []
  {
    assert Init(ms + [m]) == ms;
  }

  lemma {:induction false} OfGroupCount(groupOf: Metric -> Group, ms: seq<Metric>, g: Group, m: Metric)
    ensures multiset(OfGroup(groupOf, ms, g))[m] == if groupOf(m) == g then multiset(ms)[m] else 0
  {
    if ms != [] {
      OfGroupCount(groupOf, Init(ms), g, m);
      assert ms == Init(ms) + [Last(ms)];
    }
  }

  /** The metric that Score-P always delivers and that cannot be requested. */
  const INSTANCES: Metric := 0

  function Max(a: int, b: int): int {
    if a >= b then a else b
  }

  function Min(a: int, b: int): int {
    if a <= b then a else b
  }

  class DataProvider {
    const groupOf: Metric -> Group
    var measurementRequests: seq<Metric>
    var measurementRequestsBackup: seq<Metric>
    var burstCounter: int
    var currentIteration: int
    var oldRequestsPending: bool
    var status: GatherInfo
    ghost var submitted: multiset<Metric>   // every request sent to Score-P so far
    ghost var transfers: nat                // how often requests were sent

    constructor (groupOf: Metric -> Group)
      ensures this.groupOf == groupOf
      ensures measurementRequests == [] && burstCounter == 0 && currentIteration == 0 && !oldRequestsPending
      ensures status == NotAllInfoGathered && submitted == multiset{} && transfers == 0
    {
      this.groupOf := groupOf;
      measurementRequests, measurementRequestsBackup := [], [];
      burstCounter, currentIteration, oldRequestsPending := 0, 0, false;
      status := NotAllInfoGathered;
      submitted, transfers := multiset{}, 0;
    }

    ghost predicate Supported(ms: set<Metric>) {
      forall m :: m in ms ==> !groupOf(m).Unsupported?
    }

    /** The requests of one PAPI set, in order. */
    ghost function OfSet(ms: seq<Metric>, s: int): seq<Metric> {
      if s < 0 then [] else OfGroup(groupOf, ms, Papi(s))
    }

    ghost function AnytimeOf(ms: seq<Metric>): seq<Metric> {
      OfGroup(groupOf, ms, Anytime)
    }

    /** The PAPI sets that some request belongs to. */
    ghost function PapiSets(ms: set<Metric>): set<int> {
      set m | m in ms && groupOf(m).Papi? :: groupOf(m).papiSet
    }

    /** The state of the distribution after some requests: each PAPI set holds its requests, and
        the remembered set is a largest one. */
    ghost predicate Distributed(requests: seq<Metric>, papiSets: map<int, seq<Metric>>, anytime: seq<Metric>,
                                largest: int) {
      && Supported(Elems(requests))
      && papiSets.Keys == PapiSets(Elems(requests)) && anytime == AnytimeOf(requests)
      && (forall s :: s in papiSets ==> s >= 0 && papiSets[s] == OfSet(requests, s))
      && (forall s :: s !in papiSets ==> OfSet(requests, s) == [])
      && (if papiSets == map[] then largest == -1
          else largest in papiSets && forall s :: s in papiSets ==> |papiSets[s]| <= |papiSets[largest]|)
    }

    lemma OfSetSnoc(requests: seq<Metric>, m: Metric)
      ensures forall s ::
                OfSet(requests + [m], s) == OfSet(requests, s) + if s >= 0 && groupOf(m) == Papi(s) then [m] else []
      ensures AnytimeOf(requests + [m]) == AnytimeOf(requests) + if groupOf(m).Anytime? then [m] else []
    {
      forall s
        ensures OfSet(requests + [m], s) == OfSet(requests, s) + if s >= 0 && groupOf(m) == Papi(s) then [m] else []
      {
        if s >= 0 {
          OfGroupSnoc(groupOf, requests, m, Papi(s));
        }
      }
      OfGroupSnoc(groupOf, requests, m, Anytime);
    }

    lemma AnytimeSnoc(requests: seq<Metric>, papiSets: map<int, seq<Metric>>, anytime: seq<Metric>, largest: int,
                      m: Metric)
      requires Distributed(requests, papiSets, anytime, largest) && groupOf(m).Anytime?
      ensures Distributed(requests + [m], papiSets, anytime + [m], largest)
    {
      hide OfSet, AnytimeOf, PapiSets, Elems;
      SupportedSnoc(requests, m);
      MembersSnoc(requests, m);
      OfSetSnoc(requests, m);
    }

    /** One more request of a PAPI set; the set is remembered if it outgrows the largest so far. */
    lemma PapiSnoc(requests: seq<Metric>, papiSets: map<int, seq<Metric>>, anytime: seq<Metric>, largest: int,
                   m: Metric)
      requires Distributed(requests, papiSets, anytime, largest) && groupOf(m).Papi?
      ensures var s := groupOf(m).papiSet;
              var next := papiSets[s := (if s in papiSets then papiSets[s] else []) + [m]];
              var size := if largest in papiSets then |papiSets[largest]| else 0;
              Distributed(requests + [m], next, anytime, if |next[s]| > size then s else largest)
    {
      hide OfSet, AnytimeOf, PapiSets, Elems;
      SupportedSnoc(requests, m);
      MembersSnoc(requests, m);
      OfSetSnoc(requests, m);
    }

    lemma SupportedSnoc(requests: seq<Metric>, m: Metric)
      requires Supported(Elems(requests)) && !groupOf(m).Unsupported?
      ensures Supported(Elems(requests + [m]))
    {
    }

    lemma MembersSnoc(requests: seq<Metric>, m: Metric)
      ensures Elems(requests + [m]) == Elems(requests) + {m}
      ensures PapiSets(Elems(requests + [m])) == PapiSets(Elems(requests))
                + if groupOf(m).Papi? then {groupOf(m).papiSet} else {}
    {
    }

    /** Distributes the requests over the PAPI sets and remembers the first set to be the largest. */
    method Distribute(requests: seq<Metric>)
        returns (papiSets: map<int, seq<Metric>>, anytime: seq<Metric>, largest: int, abort: bool)
      ensures abort <==> !Supported(Elems(requests))
      ensures !abort ==> Distributed(requests, papiSets, anytime, largest)
    {
      papiSets, anytime, largest, abort := map[], [], -1, false;
      var largestSize := 0;
      assert requests[..0] == [];
      for i := 0 to |requests|
        invariant Distributed(requests[..i], papiSets, anytime, largest)
        invariant largestSize == if largest in papiSets then |papiSets[largest]| else 0
      {
        var m := requests[i];
        assert requests[..i + 1] == requests[..i] + [m];
        assert m in Elems(requests);
        if groupOf(m).Unsupported? {
          abort := true;
          return;
        }
        if groupOf(m).Papi? {
          PapiSnoc(requests[..i], papiSets, anytime, largest, m);
          var s := groupOf(m).papiSet;
          papiSets := papiSets[s := (if s in papiSets then papiSets[s] else []) + [m]];
          if |papiSets[s]| > largestSize {
            largest, largestSize := s, |papiSets[s]|;
          }
        } else {
          AnytimeSnoc(requests[..i], papiSets, anytime, largest, m);
          anytime := anytime + [m];
        }
      }
      assert requests[..|requests|] == requests;
    }

    /** The requests of the sets in `keys`, set by set, without set `l`. */
    ghost function Others(requests: seq<Metric>, keys: seq<int>, l: int): seq<Metric> {
      if keys == [] then []
      else Others(requests, Init(keys), l) + if Last(keys) == l then [] else OfSet(requests, Last(keys))
    }

    /** `l` is a PAPI set with the most requests, if there is any PAPI request. */
    ghost predicate IsLargest(requests: seq<Metric>, l: int) {
      var sets := PapiSets(Elems(requests));
      if sets == {} then l == -1
      else l in sets && forall s :: s in sets ==> |OfSet(requests, s)| <= |OfSet(requests, l)|
    }

    /** The requests are split into one largest PAPI set and all metrics that go anytime, and the
        rest, set by set. */
    ghost predicate Split(requests: seq<Metric>, l: int, selected: seq<Metric>, remaining: seq<Metric>) {
      && IsLargest(requests, l)
      && selected == OfSet(requests, l) + AnytimeOf(requests)
      && exists keys ::
           Ascending(keys) && Elems(keys) == PapiSets(Elems(requests)) && remaining == Others(requests, keys, l)
    }

    lemma DistributedMeans(requests: seq<Metric>, papiSets: map<int, seq<Metric>>, anytime: seq<Metric>, largest: int)
      requires Distributed(requests, papiSets, anytime, largest)
      ensures papiSets.Keys == PapiSets(Elems(requests)) && anytime == AnytimeOf(requests)
      ensures forall s :: s in papiSets ==> papiSets[s] == OfSet(requests, s)
      ensures largest !in papiSets ==> OfSet(requests, largest) == []
      ensures IsLargest(requests, largest)
    {
      if papiSets == map[] {
        assert papiSets.Keys == {};
      }
    }

    lemma OthersSnoc(requests: seq<Metric>, keys: seq<int>, key: int, l: int)
      ensures Others(requests, keys + [key], l)
           == Others(requests, keys, l) + if key == l then [] else OfSet(requests, key)
    {
      assert Init(keys + [key]) == keys;
    }

    /** Takes the requests of the largest set, and collects those of the other sets. */
    method Select(papiSets: map<int, seq<Metric>>, largest: int, ghost requests: seq<Metric>)
        returns (selected: seq<Metric>, remaining: seq<Metric>, ghost keys: seq<int>)
      requires forall s :: s in papiSets ==> papiSets[s] == OfSet(requests, s)
      requires largest !in papiSets ==> OfSet(requests, largest) == []
      ensures selected == OfSet(requests, largest)
      ensures Ascending(keys) && Elems(keys) == papiSets.Keys && remaining == Others(requests, keys, largest)
    {
      hide OfSet, Others;
      selected, remaining := [], [];
      var order := InOrder(papiSets.Keys);
      keys := order;
      assert forall i :: 0 <= i < |order| ==> order[i] in Elems(order);
      assert Others(requests, [], largest) == [] by {
        NoOthers(requests, largest);
      }
      for i := 0 to |order|
        invariant remaining == Others(requests, order[..i], largest)
        invariant selected == if largest in order[..i] then OfSet(requests, largest) else []
      {
        OthersSnoc(requests, order[..i], order[i], largest);
        assert order[..i + 1] == order[..i] + [order[i]];
        if order[i] == largest {
          selected := selected + papiSets[order[i]];
        } else {
          remaining := remaining + papiSets[order[i]];
        }
      }
      assert order[..|order|] == order;
      assert largest in order <==> largest in Elems(order);
    }

    lemma NoOthers(requests: seq<Metric>, l: int)
      ensures Others(requests, [], l) == []
    {
    }

    /** Selects the requests of the next round and leaves the others pending. */
    method FormRequestSet() returns (selected: seq<Metric>, ghost l: int, abort: bool)
      modifies this`measurementRequests
      ensures abort <==> !Supported(Elems(old(measurementRequests)))
      ensures !abort ==> Split(old(measurementRequests), l, selected, measurementRequests)
    {
      hide Distributed, OfSet, Others, AnytimeOf, PapiSets, IsLargest, Supported;
      ghost var requests := measurementRequests;
      var papiSets, anytime, largest;
      papiSets, anytime, largest, abort := Distribute(measurementRequests);
      selected, l := [], largest;
      if abort {
        return;
      }
      DistributedMeans(requests, papiSets, anytime, largest);
      ghost var keys;
      selected, measurementRequests, keys := Select(papiSets, largest, requests);
      selected := selected + anytime;
    }

    lemma {:induction false} OthersCount(requests: seq<Metric>, keys: seq<int>, l: int, m: Metric)
      requires Ascending(keys)
      ensures multiset(Others(requests, keys, l))[m]
           == if groupOf(m).Papi? && groupOf(m).papiSet in keys && groupOf(m).papiSet != l then multiset(requests)[m]
              else 0
      decreases |keys|
    {
      if keys != [] {
        var s := Last(keys);
        assert keys == Init(keys) + [s];
        OthersCount(requests, Init(keys), l, m);
        if s >= 0 {
          OfGroupCount(groupOf, requests, Papi(s), m);
        }
        assert s !in Init(keys);
      }
    }

    /** Where each request goes. */
    lemma SplitCounts(requests: seq<Metric>, l: int, selected: seq<Metric>, remaining: seq<Metric>, m: Metric)
      requires Split(requests, l, selected, remaining) && Supported(Elems(requests))
      ensures multiset(selected)[m]
           == if groupOf(m).Anytime? || (groupOf(m).Papi? && groupOf(m).papiSet == l) then multiset(requests)[m] else 0
      ensures multiset(selected)[m] + multiset(remaining)[m] == multiset(requests)[m]
    {
      var keys :| Ascending(keys) && Elems(keys) == PapiSets(Elems(requests)) && remaining == Others(requests, keys, l);
      OthersCount(requests, keys, l, m);
      OfGroupCount(groupOf, requests, Anytime, m);
      if l >= 0 {
        OfGroupCount(groupOf, requests, Papi(l), m);
      }
      if m in requests {
        assert m in Elems(requests);
        assert groupOf(m).Papi? ==> groupOf(m).papiSet in Elems(keys);
      }
    }

    lemma RemainingAre(requests: seq<Metric>, l: int, selected: seq<Metric>, remaining: seq<Metric>, m: Metric)
      requires Split(requests, l, selected, remaining) && Supported(Elems(requests))
      ensures m in Elems(remaining) <==> m in Elems(requests) && groupOf(m).Papi? && groupOf(m).papiSet != l
    {
      SplitCounts(requests, l, selected, remaining, m);
      assert m in remaining <==> multiset(remaining)[m] > 0;
      assert m in requests <==> multiset(requests)[m] > 0;
      assert m in requests ==> m in Elems(requests);
    }

    /** Nothing is lost and nothing is duplicated, and one PAPI set fewer is pending. */
    lemma SplitIsPartition(requests: seq<Metric>, l: int, selected: seq<Metric>, remaining: seq<Metric>)
      requires Split(requests, l, selected, remaining) && Supported(Elems(requests))
      ensures multiset(selected) + multiset(remaining) == multiset(requests)
      ensures forall m :: m in Elems(remaining) <==> m in Elems(requests) && groupOf(m).Papi? && groupOf(m).papiSet != l
      ensures Elems(remaining) <= Elems(requests) && forall m :: m in Elems(remaining) ==> groupOf(m).Papi?
      ensures PapiSets(Elems(remaining)) == PapiSets(Elems(requests)) - {l}
      ensures |PapiSets(Elems(remaining))|
           == |PapiSets(Elems(requests))| - if PapiSets(Elems(requests)) == {} then 0 else 1
    {
      forall m
        ensures multiset(selected)[m] + multiset(remaining)[m] == multiset(requests)[m]
        ensures m in Elems(remaining) <==> m in Elems(requests) && groupOf(m).Papi? && groupOf(m).papiSet != l
      {
        SplitCounts(requests, l, selected, remaining, m);
        RemainingAre(requests, l, selected, remaining, m);
      }
      OneSetFewer(requests, l, remaining);
    }

    lemma OneSetFewer(requests: seq<Metric>, l: int, remaining: seq<Metric>)
      requires IsLargest(requests, l)
      requires forall m :: m in Elems(remaining) <==>
                 m in Elems(requests) && groupOf(m).Papi? && groupOf(m).papiSet != l
      ensures PapiSets(Elems(remaining)) == PapiSets(Elems(requests)) - {l}
      ensures |PapiSets(Elems(remaining))|
           == |PapiSets(Elems(requests))| - if PapiSets(Elems(requests)) == {} then 0 else 1
    {
      forall s | s in PapiSets(Elems(requests)) - {l}
        ensures s in PapiSets(Elems(remaining))
      {
        var m :| m in Elems(requests) && groupOf(m).Papi? && groupOf(m).papiSet == s;
        assert m in Elems(remaining);
      }
    }

    /** Queues a request, unless an earlier schedule is unfinished. */
    method AddMeasurementRequest(m: Metric) returns (abort: bool)
      modifies this`measurementRequests
      ensures abort == oldRequestsPending
      ensures measurementRequests == old(measurementRequests) + if abort || m == INSTANCES then [] else [m]
    {
      abort := oldRequestsPending;
      if abort || m == INSTANCES {
        return;
      }
      measurementRequests := measurementRequests + [m];
    }

    method SetIterationBurstLength(length: int)
      modifies this`burstCounter, this`measurementRequestsBackup
      ensures burstCounter == length && measurementRequestsBackup == measurementRequests
    {
      burstCounter := length;
      measurementRequestsBackup := measurementRequests;
    }

    /** Sends the requests of the next round to Score-P. */
    method TransferRequests()
      returns (abort: bool, ghost requests: seq<Metric>, ghost l: int, ghost selected: seq<Metric>)
      modifies this`measurementRequests, this`status, this`submitted, this`transfers
      ensures Ascending(requests) && Elems(requests) == Elems(old(measurementRequests))
      ensures abort <==> !Supported(Elems(requests))
      ensures !abort ==> Split(requests, l, selected, measurementRequests)
      ensures !abort ==> submitted == old(submitted) + multiset(selected) && transfers == old(transfers) + 1
      ensures !abort ==> status == NotAllInfoGathered
    {
      hide Split, Supported;
      measurementRequests := InOrder(set m | m in measurementRequests);
      requests := measurementRequests;
      var selectedRequests;
      selectedRequests, l, abort := FormRequestSet();
      selected := selectedRequests;
      if abort {
        return;
      }
      submitted, transfers := submitted + multiset(selectedRequests), transfers + 1;
      status := NotAllInfoGathered;
    }

    /** Takes in the results of a round and decides whether the schedule goes on. */
    method GetResults() returns (gatherInfo: GatherInfo)
      modifies this`burstCounter, this`measurementRequests, this`currentIteration, this`oldRequestsPending, this`status
      ensures old(status) == AllInfoGathered ==> gatherInfo == AllInfoGathered && unchanged(this)
      ensures old(status) == NotAllInfoGathered ==>
                && gatherInfo == status
                && burstCounter == (if old(burstCounter) > 0 then old(burstCounter) - 1 else old(burstCounter))
                && (gatherInfo == AllInfoGathered <==> old(measurementRequests) == [] && burstCounter <= 0)
                && measurementRequests == (if old(measurementRequests) == [] && burstCounter > 0
                                           then measurementRequestsBackup else old(measurementRequests))
                && currentIteration == old(currentIteration)
                     + (if gatherInfo == AllInfoGathered || burstCounter > 0 then 1 else 0)
                && oldRequestsPending ==
                   (gatherInfo == NotAllInfoGathered && (burstCounter <= 0 || old(oldRequestsPending)))
    {
      gatherInfo := AllInfoGathered;
      if status == AllInfoGathered {
        return;
      }
      if burstCounter > 0 {
        burstCounter := burstCounter - 1;
      }
      if measurementRequests != [] {
        gatherInfo := NotAllInfoGathered;
      } else if burstCounter > 0 {
        gatherInfo := NotAllInfoGathered;
        measurementRequests := measurementRequestsBackup;
      }
      if gatherInfo == AllInfoGathered {
        currentIteration := currentIteration + 1;
        oldRequestsPending := false;
      } else if burstCounter > 0 {
        currentIteration := currentIteration + 1;
      } else {
        oldRequestsPending := true;
      }
      status := gatherInfo;
    }

    /** The state of the schedule when `left` is pending after a transfer. */
    ghost predicate Sent(pending: set<Metric>, left: set<Metric>, before: multiset<Metric>, after: multiset<Metric>) {
      && left <= pending
      && (forall m :: m in left ==> groupOf(m).Papi?)
      && |PapiSets(left)| == (if PapiSets(pending) == {} then 0 else |PapiSets(pending)| - 1)
      && (forall m :: after[m] == before[m] + if m in pending && m !in left then 1 else 0)
    }

    lemma SelectedOnce(requests: seq<Metric>, l: int, selected: seq<Metric>, remaining: seq<Metric>, m: Metric)
      requires Ascending(requests) && Supported(Elems(requests)) && Split(requests, l, selected, remaining)
      ensures multiset(selected)[m] == if m in Elems(requests) && m !in Elems(remaining) then 1 else 0
    {
      hide Split, Elems;
      SplitCounts(requests, l, selected, remaining, m);
      RemainingAre(requests, l, selected, remaining, m);
      AscendingOnce(requests, m);
      if m in Elems(requests) {
        KnownGroup(requests, m);
      }
    }

    lemma KnownGroup(requests: seq<Metric>, m: Metric)
      requires Supported(Elems(requests)) && m in Elems(requests)
      ensures groupOf(m).Papi? || groupOf(m).Anytime?
    {
    }

    lemma SentIsSubset(pending: set<Metric>, left: set<Metric>, before: multiset<Metric>, after: multiset<Metric>)
      requires Sent(pending, left, before, after)
      ensures left <= pending
    {
    }

    lemma SplitSends(requests: seq<Metric>, l: int, selected: seq<Metric>, remaining: seq<Metric>,
                     before: multiset<Metric>)
      requires Ascending(requests) && Supported(Elems(requests)) && Split(requests, l, selected, remaining)
      ensures Sent(Elems(requests), Elems(remaining), before, before + multiset(selected))
    {
      hide Split, Elems, PapiSets, Supported;
      SplitIsPartition(requests, l, selected, remaining);
      forall m
        ensures multiset(selected)[m] == if m in Elems(requests) && m !in Elems(remaining) then 1 else 0
      {
        SelectedOnce(requests, l, selected, remaining, m);
      }
      var after := before + multiset(selected);
      assert forall m :: after[m] == before[m] + multiset(selected)[m];
      NoSets(Elems(requests));
    }

    lemma {:induction false} AscendingOnce(requests: seq<Metric>, m: Metric)
      requires Ascending(requests)
      ensures multiset(requests)[m] == if m in Elems(requests) then 1 else 0
      decreases |requests|
    {
      if requests != [] {
        AscendingOnce(Init(requests), m);
        assert requests == Init(requests) + [Last(requests)];
        assert Last(requests) !in Init(requests);
      }
    }

    lemma NoSetsNoMetrics(left: set<Metric>)
      requires forall m :: m in left ==> groupOf(m).Papi?
      ensures left == {} <==> |PapiSets(left)| == 0
    {
      if left != {} {
        NonEmpty(left);
        var m :| m in left;
        assert groupOf(m).papiSet in PapiSets(left);
      }
    }

    /** One round: transfer, measure, take in the results. */
    method Round() returns (gatherInfo: GatherInfo, ghost left: set<Metric>)
      requires Supported(Elems(measurementRequests))
      modifies this`measurementRequests, this`burstCounter, this`currentIteration, this`oldRequestsPending, this`status
      modifies this`submitted, this`transfers
      ensures Sent(old(Elems(measurementRequests)), left, old(submitted), submitted)
      ensures left <= old(Elems(measurementRequests)) && transfers == old(transfers) + 1
      ensures burstCounter == (if old(burstCounter) > 0 then old(burstCounter) - 1 else old(burstCounter))
      ensures gatherInfo == status && (gatherInfo == AllInfoGathered <==> left == {} && burstCounter <= 0)
      ensures Elems(measurementRequests) == if left == {} && burstCounter > 0 then Elems(measurementRequestsBackup)
                                            else left
      ensures currentIteration
           == old(currentIteration) + if gatherInfo == AllInfoGathered || burstCounter > 0 then 1 else 0
      ensures gatherInfo == AllInfoGathered ==> !oldRequestsPending
    {
      hide Split, Supported, Sent, PapiSets, Elems;
      var abort;
      ghost var requests, l, selected;
      abort, requests, l, selected := TransferRequests();
      SplitSends(requests, l, selected, measurementRequests, old(submitted));
      left := Elems(measurementRequests);
      SentIsSubset(Elems(requests), left, old(submitted), submitted);
      NoMembers(measurementRequests);
      gatherInfo := GetResults();
    }

    /** The number of rounds in one sweep over the requests `r0`. */
    ghost function SweepLength(r0: set<Metric>): (k: nat)
      ensures k >= 1
    {
      Max(|PapiSets(r0)|, 1)
    }

    /** Where the schedule stands after `s` full sweeps and `j` rounds of the next. */
    ghost predicate Under(r0: set<Metric>, b: int, s: nat, j: nat, pending: set<Metric>, burst: int,
                          steps: int, before: multiset<Metric>, after: multiset<Metric>)
    {
      var k := SweepLength(r0);
      && j < k && pending <= r0
      && (s == 0 || s * k < b)
      && burst == (if b > 0 then Max(b - (s * k + j), 0) else b)
      && steps == Min(s * k + j, Max(b, 1) - 1)
      && |PapiSets(pending)| == |PapiSets(r0)| - j
      && (if j == 0 then pending == r0 else forall m :: m in pending ==> groupOf(m).Papi?)
      && (forall m :: m in r0 ==> after[m] == before[m] + s + if m in pending then 0 else 1)
      && (forall m :: m !in r0 ==> after[m] == before[m])
    }

    /** One round takes the schedule on by one round, or to the next sweep, or to its end. */
    lemma UnderNext(r0: set<Metric>, b: int, s: nat, j: nat, pending: set<Metric>, burst: int, steps: int,
                    before: multiset<Metric>, after: multiset<Metric>,
                    left: set<Metric>, burst': int, after': multiset<Metric>)
      requires Under(r0, b, s, j, pending, burst, steps, before, after)
      requires Sent(pending, left, after, after')
      requires burst' == if burst > 0 then burst - 1 else burst
      ensures left == {} <==> j + 1 == SweepLength(r0)
      ensures left != {} ==>
                Under(r0, b, s, j + 1, left, burst', steps + if burst' > 0 then 1 else 0, before, after')
      ensures left == {} && burst' > 0 ==> Under(r0, b, s + 1, 0, r0, burst', steps + 1, before, after')
      ensures left == {} && burst' <= 0 ==>
                && s + 1 == CeilDiv(Max(b, 1), SweepLength(r0)) && steps + 1 == Max(b, 1)
                && (forall m :: after'[m] == before[m] + if m in r0 then s + 1 else 0)
    {
      var k := SweepLength(r0);
      NoSetsNoMetrics(left);
      NoSets(pending);
      assert (s + 1) * k == s * k + k;
      if left == {} && burst' <= 0 {
        CeilDivUnique(Max(b, 1), k, s + 1);
      }
    }

    lemma NoSets(ms: set<Metric>)
      ensures PapiSets(ms) == {} <==> |PapiSets(ms)| == 0
    {
    }

    lemma UnderBound(r0: set<Metric>, b: int, s: nat, j: nat, pending: set<Metric>, burst: int,
                     steps: int, before: multiset<Metric>, after: multiset<Metric>)
      requires Under(r0, b, s, j, pending, burst, steps, before, after)
      ensures s * SweepLength(r0) + j < CeilDiv(Max(b, 1), SweepLength(r0)) * SweepLength(r0)
    {
      var k, t := SweepLength(r0), CeilDiv(Max(b, 1), SweepLength(r0));
      assert Max(b, 1) + k - 1 < t * k + k;
      if t <= s {
        TimesMonotone(t, s, k);
      } else {
        TimesMonotone(s + 1, t, k);
        assert (s + 1) * k == s * k + k;
      }
    }

    lemma SupportedSubset(pending: set<Metric>, left: set<Metric>)
      requires Supported(pending)
      ensures left <= pending ==> Supported(left)
    {
    }

    lemma UnderStart(r0: set<Metric>, b: int, before: multiset<Metric>)
      ensures Under(r0, b, 0, 0, r0, b, 0, before, before)
    {
    }

    /** Rounds until everything is gathered.  A burst of `b` iterations over requests from `n` PAPI
        sets takes ceil(B/K) sweeps of K rounds, with B = max(b, 1) and K = max(n, 1): each metric is
        measured once per sweep, and the iteration counter advances by B. */
    method Measure()
      requires Supported(Elems(measurementRequests)) && measurementRequestsBackup == measurementRequests
      modifies this`measurementRequests, this`burstCounter, this`currentIteration, this`oldRequestsPending, this`status
      modifies this`submitted, this`transfers
      ensures status == AllInfoGathered && !oldRequestsPending && measurementRequests == []
      ensures var k := SweepLength(old(Elems(measurementRequests)));
              var sweeps := CeilDiv(Max(old(burstCounter), 1), k);
              && transfers == old(transfers) + sweeps * k
              && (forall m ::
                    submitted[m] == old(submitted)[m] + if m in old(Elems(measurementRequests)) then sweeps else 0)
      ensures currentIteration == old(currentIteration) + Max(old(burstCounter), 1)
    {
      hide Under, Sent, Supported, PapiSets, Elems, CeilDiv, SweepLength;
      ghost var r0, b, before, it0 := Elems(measurementRequests), burstCounter, submitted, currentIteration;
      ghost var s, j := 0, 0;
      UnderStart(r0, b, before);
      var gatherInfo := NotAllInfoGathered;
      ghost var k := SweepLength(r0);
      while gatherInfo != AllInfoGathered
        invariant transfers == old(transfers) + s * k + j && measurementRequestsBackup == old(measurementRequests)
        invariant gatherInfo != AllInfoGathered ==>
                    && Under(r0, b, s, j, Elems(measurementRequests), burstCounter, currentIteration - it0, before,
                             submitted)
                    && Supported(Elems(measurementRequests))
        invariant gatherInfo == AllInfoGathered ==>
                    && j == 0 && s == CeilDiv(Max(b, 1), k) && currentIteration - it0 == Max(b, 1)
                    && (forall m :: submitted[m] == before[m] + if m in r0 then s else 0)
                    && measurementRequests == [] && gatherInfo == status && !oldRequestsPending
        decreases gatherInfo != AllInfoGathered, CeilDiv(Max(b, 1), k) * k - (s * k + j)
      {
        ghost var pending, burst := Elems(measurementRequests), burstCounter;
        ghost var steps, after := currentIteration - it0, submitted;
        UnderBound(r0, b, s, j, pending, burst, steps, before, after);
        ghost var left;
        gatherInfo, left := Round();
        SupportedSubset(pending, left);
        NoMembers(measurementRequests);
        UnderNext(r0, b, s, j, pending, burst, steps, before, after, left, burstCounter, submitted);
        if left == {} {
          s, j := s + 1, 0;
        } else {
          j := j + 1;
        }
      }
    }
  }
}
