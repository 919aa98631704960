/** Giving metrics to the quality expressions of property configurations: each expression gets one of
    a small range of metrics when it is first used. */
module MetricAllocation {
  import opened Maps

  type ExpressionId = int

  type Metric = int

  /** How many metrics there are to give out. */
  const MAX_CONFIGURABLE_MEASURE := 16

  datatype MetricConfiguration = MetricConfiguration(mid: Metric, expression: ExpressionId)

  datatype PropertyConfiguration = PropertyConfiguration(severityExpression: string, metricList: seq<Metric>)

  datatype Outcome = Registered(config: PropertyConfiguration) | NoMoreMetrics | Inconsistent

  /** The expressions that need a metric yet. */
  ghost function NewIn(ids: seq<ExpressionId>, known: map<ExpressionId, Metric>): set<ExpressionId> {
    set e | e in ids && e !in known
  }

  /** The metrics for a list of expressions, as far as it goes. */
  ghost predicate MetricsFor(metrics: seq<Metric>, ids: seq<ExpressionId>, known: map<ExpressionId, Metric>) {
    |metrics| <= |ids| && forall k :: 0 <= k < |metrics| ==> ids[k] in known && metrics[k] == known[ids[k]]
  }

  /** Expressions and metrics given out correspond one to one, and each metric is configured with its
      expression, in the order of the metrics. */
  ghost predicate OneToOne(first: Metric, cursor: Metric, known: map<ExpressionId, Metric>,
                           configs: seq<MetricConfiguration>) {
    && first <= cursor <= first + MAX_CONFIGURABLE_MEASURE
    && |configs| == cursor - first
    && (forall i :: 0 <= i < |configs| ==> Configured(configs[i], first + i, known))
    && (forall e :: e in known ==> first <= known[e] < cursor && configs[known[e] - first].expression == e)
  }

  ghost predicate Configured(config: MetricConfiguration, metric: Metric, known: map<ExpressionId, Metric>) {
    config.mid == metric && config.expression in known && known[config.expression] == metric
  }

  lemma OneToOneNext(first: Metric, cursor: Metric, known: map<ExpressionId, Metric>, configs: seq<MetricConfiguration>,
                     id: ExpressionId)
    requires OneToOne(first, cursor, known, configs) && id !in known && cursor < first + MAX_CONFIGURABLE_MEASURE
    ensures OneToOne(first, cursor + 1, known[id := cursor], configs + [MetricConfiguration(cursor, id)])
  {
  }

  /** The metrics of a property are those of its expressions; and, but for the properties that are being
      registered, there are fewer of them exactly if the registration failed. */
  ghost predicate Complete(configs: map<string, PropertyConfiguration>, expressionsOf: map<string, seq<ExpressionId>>,
                           failed: set<string>, busy: set<string>, known: map<ExpressionId, Metric>)
  {
    && configs.Keys == expressionsOf.Keys && failed <= configs.Keys
    && forall name :: name in configs ==>
         && MetricsFor(configs[name].metricList, expressionsOf[name], known)
         && (name !in busy ==> (name in failed <==> |configs[name].metricList| < |expressionsOf[name]|))
  }

  /** With `left` metrics, the first `n` expressions get theirs, and the next one does not. */
  ghost predicate RunsOut(ids: seq<ExpressionId>, n: nat, known: map<ExpressionId, Metric>, left: int) {
    n < |ids| && |NewIn(ids[..n], known)| == left && ids[n] !in known && ids[n] !in ids[..n]
  }

  /** `more` is `known` with metrics for the expressions in `added`. */
  ghost predicate Grown(known: map<ExpressionId, Metric>, more: map<ExpressionId, Metric>, added: set<ExpressionId>) {
    Extends(known, more) && more.Keys == known.Keys + added
  }

  lemma GrownNext(known: map<ExpressionId, Metric>, before: map<ExpressionId, Metric>, more: map<ExpressionId, Metric>,
                  added: set<ExpressionId>, id: ExpressionId)
    requires Grown(known, before, added) && Extends(before, more) && more.Keys == before.Keys + {id}
    ensures Grown(known, more, added + if id in known then {} else {id})
  {
  }

  lemma StillComplete(configs: map<string, PropertyConfiguration>, expressionsOf: map<string, seq<ExpressionId>>,
                      failed: set<string>, busy: set<string>, known: map<ExpressionId, Metric>,
                      more: map<ExpressionId, Metric>)
    requires Complete(configs, expressionsOf, failed, busy, known) && Extends(known, more)
    ensures Complete(configs, expressionsOf, failed, busy, more)
  {
    forall name | name in configs
      ensures MetricsFor(configs[name].metricList, expressionsOf[name], more)
    {
      var metrics, ids := configs[name].metricList, expressionsOf[name];
      assert MetricsFor(metrics, ids, known);
      forall k | 0 <= k < |metrics|
        ensures ids[k] in more && metrics[k] == more[ids[k]]
      {
        ExtendsAt(known, more, ids[k]);
      }
    }
  }

  /** One more expression needs at most one more metric. */
  lemma NewNext(ids: seq<ExpressionId>, i: nat, known: map<ExpressionId, Metric>)
    requires i < |ids|
    ensures var before, after := NewIn(ids[..i], known), NewIn(ids[..i + 1], known);
            && after == before + (if ids[i] in known then {} else {ids[i]})
            && |after| == |before| + (if ids[i] in known || ids[i] in before then 0 else 1)
    ensures |NewIn(ids[..i + 1], known)| <= |NewIn(ids, known)|
  {
    var before, after := NewIn(ids[..i], known), NewIn(ids[..i + 1], known);
    assert ids[..i + 1] == ids[..i] + [ids[i]];
    if ids[i] in known || ids[i] in before {
      assert after == before;
    } else {
      assert after == before + {ids[i]};
    }
    SubsetSize(after, NewIn(ids, known));
  }

  lemma SubsetSize(a: set<ExpressionId>, b: set<ExpressionId>)
    requires a <= b
    ensures |a| <= |b|
  {
    assert b == a + (b - a);
  }

  class PropertyConfigurationManager {
    const first: Metric
    var metricAllocationCursor: Metric
    var metricsByQualExpr: map<ExpressionId, Metric>
    var metricConfigList: seq<MetricConfiguration>
    var propertyConfigurations: map<string, PropertyConfiguration>
    /** The expressions of each property, and the properties whose registration failed. */
    ghost var expressionsOf: map<string, seq<ExpressionId>>
    ghost var failed: set<string>

    ghost predicate Allocated()
      reads this`metricAllocationCursor, this`metricsByQualExpr, this`metricConfigList
    {
      OneToOne(first, metricAllocationCursor, metricsByQualExpr, metricConfigList)
    }

    /** What holds while some properties are being registered. */
    ghost predicate Busy(names: set<string>)
      reads this
    {
      Allocated() && Complete(propertyConfigurations, expressionsOf, failed, names, metricsByQualExpr)
    }

    ghost predicate Valid()
      reads this
    {
      Busy({})
    }

    constructor (first: Metric)
      ensures Valid() && propertyConfigurations == map[] && metricsByQualExpr == map[]
      ensures this.first == metricAllocationCursor == first
    {
      this.first, metricAllocationCursor := first, first;
      metricsByQualExpr, metricConfigList, propertyConfigurations := map[], [], map[];
      expressionsOf, failed := map[], {};
    }

    method Clear()
      modifies this
      ensures Valid() && propertyConfigurations == map[] && metricsByQualExpr == map[]
      ensures metricAllocationCursor == first
    {
      metricAllocationCursor := first;
      metricsByQualExpr, metricConfigList, propertyConfigurations := map[], [], map[];
      expressionsOf, failed := map[], {};
    }

    /** The metric of an expression, which is a new one if it has none yet and there still is one. */
    method MetricOf(id: ExpressionId) returns (ok: bool, metric: Metric)
      requires Allocated()
      modifies this`metricAllocationCursor, this`metricsByQualExpr, this`metricConfigList
      ensures Allocated() && Extends(old(metricsByQualExpr), metricsByQualExpr)
      ensures ok ==> metricsByQualExpr.Keys == old(metricsByQualExpr).Keys + {id}
      ensures ok <==> id in old(metricsByQualExpr) || old(metricAllocationCursor) < first + MAX_CONFIGURABLE_MEASURE
      ensures ok ==> id in metricsByQualExpr && metricsByQualExpr[id] == metric
      ensures if ok && id !in old(metricsByQualExpr)
              then metricAllocationCursor == old(metricAllocationCursor) + 1
              else metricsByQualExpr == old(metricsByQualExpr) && metricAllocationCursor == old(metricAllocationCursor)
      ensures !ok ==> metricAllocationCursor == first + MAX_CONFIGURABLE_MEASURE
    {
      hide OneToOne;
      ok, metric := true, 0;
      if id in metricsByQualExpr {
        return true, metricsByQualExpr[id];
      }
      CursorBound();
      if metricAllocationCursor == first + MAX_CONFIGURABLE_MEASURE {
        return false, 0;
      }
      OneToOneNext(first, metricAllocationCursor, metricsByQualExpr, metricConfigList, id);
      metric := metricAllocationCursor;
      metricAllocationCursor := metricAllocationCursor + 1;
      metricsByQualExpr := metricsByQualExpr[id := metric];
      metricConfigList := metricConfigList + [MetricConfiguration(metric, id)];
    }

    lemma CursorBound()
      requires Allocated()
      ensures first <= metricAllocationCursor <= first + MAX_CONFIGURABLE_MEASURE
    {
    }

    /** Appends a metric to the list of a property. */
    method Append(name: string, metric: Metric, ghost i: nat)
      requires name in propertyConfigurations && name in failed && name in expressionsOf
      requires Complete(propertyConfigurations, expressionsOf, failed, {name}, metricsByQualExpr)
      requires |propertyConfigurations[name].metricList| == i < |expressionsOf[name]|
      requires expressionsOf[name][i] in metricsByQualExpr && metric == metricsByQualExpr[expressionsOf[name][i]]
      modifies this`propertyConfigurations
      ensures Complete(propertyConfigurations, expressionsOf, failed, {name}, metricsByQualExpr)
      ensures name in propertyConfigurations && |propertyConfigurations[name].metricList| == i + 1
      ensures propertyConfigurations[name].severityExpression == old(propertyConfigurations)[name].severityExpression
      ensures propertyConfigurations == old(propertyConfigurations)[name := propertyConfigurations[name]]
    {
      var config := propertyConfigurations[name];
      propertyConfigurations := propertyConfigurations[name := config.(metricList := config.metricList + [metric])];
    }

    /** Registers a property; `ids` are the expressions its severity expression consists of.  Under a
        new name it fails exactly when there are more new expressions than metrics left, and then the
        property has metrics up to the first expression that gets none.  The property is returned with a
        metric for every expression exactly if its first registration did not fail. */
    method RegisterPropertyConfiguration(name: string, severityExpression: string, ids: seq<ExpressionId>)
      returns (r: Outcome)
      requires Valid()
      modifies this
      ensures Valid() && Extends(old(metricsByQualExpr), metricsByQualExpr)
      ensures name in expressionsOf
      ensures r.Registered? ==>
                && MetricsFor(r.config.metricList, expressionsOf[name], metricsByQualExpr)
                && (|r.config.metricList| == |expressionsOf[name]| <==> name !in failed)
      ensures name in old(propertyConfigurations) ==>
                && propertyConfigurations == old(propertyConfigurations) && metricsByQualExpr == old(metricsByQualExpr)
                && metricConfigList == old(metricConfigList)
                && metricAllocationCursor == old(metricAllocationCursor)
                && failed == old(failed) && expressionsOf == old(expressionsOf)
                && r == if old(propertyConfigurations)[name].severityExpression == severityExpression
                        then Registered(old(propertyConfigurations)[name]) else Inconsistent
      ensures name !in old(propertyConfigurations) ==>
                && name in propertyConfigurations && expressionsOf == old(expressionsOf)[name := ids]
                && propertyConfigurations == old(propertyConfigurations)[name := propertyConfigurations[name]]
                && propertyConfigurations[name].severityExpression == severityExpression
                && (r == NoMoreMetrics ==>
                      RunsOut(ids, |propertyConfigurations[name].metricList|, old(metricsByQualExpr),
                              first + MAX_CONFIGURABLE_MEASURE - old(metricAllocationCursor)))
      ensures name !in old(propertyConfigurations) ==>
                var needed := |NewIn(ids, old(metricsByQualExpr))|;
                var left := first + MAX_CONFIGURABLE_MEASURE - old(metricAllocationCursor);
                if needed <= left then
                  && r == Registered(propertyConfigurations[name]) && failed == old(failed)
                  && metricAllocationCursor == old(metricAllocationCursor) + needed
                else
                  && r == NoMoreMetrics && failed == old(failed) + {name}
                  && metricAllocationCursor == first + MAX_CONFIGURABLE_MEASURE
    {
      if name in propertyConfigurations {
        if severityExpression != propertyConfigurations[name].severityExpression {
          return Inconsistent;
        }
        return Registered(propertyConfigurations[name]);
      }
      r := RegisterNew(name, severityExpression, ids);
    }

    /** While a property is being registered, its first `i` expressions have their metrics; before that,
        `known` had. */
    ghost predicate Filled(name: string, ids: seq<ExpressionId>, i: nat, known: map<ExpressionId, Metric>,
                           cursor: Metric)
      reads this
    {
      && i <= |ids| && Grown(known, metricsByQualExpr, NewIn(ids[..i], known))
      && name in failed && name in propertyConfigurations && name in expressionsOf && expressionsOf[name] == ids
      && |propertyConfigurations[name].metricList| == i
      && metricAllocationCursor == cursor + |NewIn(ids[..i], known)|
    }

    /** Finds the metric for the next expression of a property. */
    method FillNext(name: string, ids: seq<ExpressionId>, i: nat, ghost known: map<ExpressionId, Metric>,
                    ghost cursor: Metric) returns (ok: bool)
      requires Busy({name}) && Filled(name, ids, i, known, cursor) && i < |ids|
      modifies this`metricAllocationCursor, this`metricsByQualExpr, this`metricConfigList, this`propertyConfigurations
      ensures Busy({name}) && Extends(known, metricsByQualExpr)
      ensures ok ==> Filled(name, ids, i + 1, known, cursor)
      ensures !ok ==> RunsOut(ids, i, known, first + MAX_CONFIGURABLE_MEASURE - cursor)
      ensures !ok ==> metricAllocationCursor == first + MAX_CONFIGURABLE_MEASURE < cursor + |NewIn(ids, known)|
      ensures !ok ==> propertyConfigurations == old(propertyConfigurations)
      ensures name in propertyConfigurations
      ensures propertyConfigurations == old(propertyConfigurations)[name := propertyConfigurations[name]]
      ensures propertyConfigurations[name].severityExpression == old(propertyConfigurations)[name].severityExpression
    {
      hide OneToOne, MetricsFor, Complete, Grown, Extends, NewIn;
      ghost var before := metricsByQualExpr;
      var nextMetric;
      ok, nextMetric := MetricOf(ids[i]);
      if ok {
        NextGrown(ids, i, known, before, metricsByQualExpr);
        StillComplete(propertyConfigurations, expressionsOf, failed, {name}, before, metricsByQualExpr);
        Append(name, nextMetric, i);
      } else {
        NextMissing(ids, i, known, before);
      }
    }

    /** Enters a property that has no metrics yet. */
    method Enter(name: string, severityExpression: string, ids: seq<ExpressionId>)
      requires Valid() && name !in propertyConfigurations
      modifies this`propertyConfigurations, this`expressionsOf, this`failed
      ensures Busy({name}) && Filled(name, ids, 0, metricsByQualExpr, metricAllocationCursor)
      ensures propertyConfigurations == old(propertyConfigurations)[name := propertyConfigurations[name]]
      ensures expressionsOf == old(expressionsOf)[name := ids] && failed == old(failed) + {name}
      ensures old(failed) == failed - {name}
      ensures propertyConfigurations[name].severityExpression == severityExpression
    {
      hide OneToOne, MetricsFor;
      NoneNew(ids, metricsByQualExpr);
      propertyConfigurations := propertyConfigurations[name := PropertyConfiguration(severityExpression, [])];
      expressionsOf := expressionsOf[name := ids];
      failed := failed + {name};
    }

    method RegisterNew(name: string, severityExpression: string, ids: seq<ExpressionId>) returns (r: Outcome)
      requires Valid() && name !in propertyConfigurations
      modifies this
      ensures Valid() && Extends(old(metricsByQualExpr), metricsByQualExpr)
      ensures name in propertyConfigurations && expressionsOf == old(expressionsOf)[name := ids]
      ensures propertyConfigurations == old(propertyConfigurations)[name := propertyConfigurations[name]]
      ensures propertyConfigurations[name].severityExpression == severityExpression
      ensures r == NoMoreMetrics ==>
                RunsOut(ids, |propertyConfigurations[name].metricList|, old(metricsByQualExpr),
                        first + MAX_CONFIGURABLE_MEASURE - old(metricAllocationCursor))
      ensures var needed := |NewIn(ids, old(metricsByQualExpr))|;
              var left := first + MAX_CONFIGURABLE_MEASURE - old(metricAllocationCursor);
              if needed <= left then
                && r == Registered(propertyConfigurations[name]) && failed == old(failed)
                && metricAllocationCursor == old(metricAllocationCursor) + needed
              else
                && r == NoMoreMetrics && failed == old(failed) + {name}
                && metricAllocationCursor == first + MAX_CONFIGURABLE_MEASURE
    {
      hide OneToOne, MetricsFor, Complete, Grown, NewIn, Extends;
      ghost var known, cursor := metricsByQualExpr, metricAllocationCursor;
      Enter(name, severityExpression, ids);
      for index := 0 to |ids|
        invariant Busy({name}) && Filled(name, ids, index, known, cursor)
        invariant expressionsOf == old(expressionsOf)[name := ids] && failed == old(failed) + {name}
        invariant propertyConfigurations == old(propertyConfigurations)[name := propertyConfigurations[name]]
        invariant propertyConfigurations[name].severityExpression == severityExpression
      {
        var ok := FillNext(name, ids, index, known, cursor);
        if !ok {
          NowComplete(name);
          return NoMoreMetrics;
        }
      }
      assert ids[..|ids|] == ids;
      CursorBound();
      GrownExtends(known, metricsByQualExpr, NewIn(ids, known));
      NowComplete(name);
      failed := failed - {name};
      r := Registered(propertyConfigurations[name]);
    }

    lemma NowComplete(name: string)
      requires Complete(propertyConfigurations, expressionsOf, failed, {name}, metricsByQualExpr)
      requires name in propertyConfigurations && name in expressionsOf && name in failed
      ensures var fails := |propertyConfigurations[name].metricList| < |expressionsOf[name]|;
              Complete(propertyConfigurations, expressionsOf, if fails then failed else failed - {name}, {},
                       metricsByQualExpr)
    {
    }
  }

  lemma GrownExtends(known: map<ExpressionId, Metric>, more: map<ExpressionId, Metric>, added: set<ExpressionId>)
    requires Grown(known, more, added)
    ensures Extends(known, more)
  {
  }

  lemma NextGrown(ids: seq<ExpressionId>, i: nat, known: map<ExpressionId, Metric>, before: map<ExpressionId, Metric>,
                  more: map<ExpressionId, Metric>)
    requires i < |ids| && Grown(known, before, NewIn(ids[..i], known))
    requires Extends(before, more) && more.Keys == before.Keys + {ids[i]}
    ensures Grown(known, more, NewIn(ids[..i + 1], known)) && Extends(known, more)
    ensures |NewIn(ids[..i + 1], known)| == |NewIn(ids[..i], known)| + if ids[i] in before then 0 else 1
  {
    NewNext(ids, i, known);
    GrownMeans(known, before, NewIn(ids[..i], known), ids[i]);
    GrownNext(known, before, more, NewIn(ids[..i], known), ids[i]);
  }

  lemma NextMissing(ids: seq<ExpressionId>, i: nat, known: map<ExpressionId, Metric>, before: map<ExpressionId, Metric>)
    requires i < |ids| && Grown(known, before, NewIn(ids[..i], known)) && ids[i] !in before
    ensures |NewIn(ids, known)| > |NewIn(ids[..i], known)| && Extends(known, before)
    ensures ids[i] !in known && ids[i] !in ids[..i]
  {
    NewNext(ids, i, known);
    GrownMeans(known, before, NewIn(ids[..i], known), ids[i]);
  }

  lemma GrownMeans(known: map<ExpressionId, Metric>, more: map<ExpressionId, Metric>, added: set<ExpressionId>,
                   id: ExpressionId)
    requires Grown(known, more, added)
    ensures id in more <==> id in known || id in added
  {
  }

  lemma NoneNew(ids: seq<ExpressionId>, known: map<ExpressionId, Metric>)
    ensures NewIn(ids[..0], known) == {} && known.Keys == known.Keys + NewIn(ids[..0], known)
    ensures MetricsFor([], ids, known)
  {
  }

  /** That many different expressions. */
  function Numbers(n: nat): seq<ExpressionId> {
    seq(n, i => i)
  }

  lemma {:induction false} NumbersNew(n: nat)
    ensures |NewIn(Numbers(n), map[])| == n
  {
    if n == 0 {
      assert NewIn(Numbers(0), map[]) == {};
    } else {
      NumbersNew(n - 1);
      assert Numbers(n) == Numbers(n - 1) + [n - 1];
      assert NewIn(Numbers(n), map[]) == NewIn(Numbers(n - 1), map[]) + {n - 1};
    }
  }

  /** One expression more than there are metrics, and the property registered twice: the first time it
      fails, and the second time it is returned without a metric for its last expression. */
  method RegisterTwice(name: string, severityExpression: string)
    returns (manager: PropertyConfigurationManager, once: Outcome, again: Outcome)
    ensures fresh(manager) && manager.Valid() && once == NoMoreMetrics && again.Registered?
    ensures |again.config.metricList| == MAX_CONFIGURABLE_MEASURE < |Numbers(MAX_CONFIGURABLE_MEASURE + 1)|
  {
    var ids := Numbers(MAX_CONFIGURABLE_MEASURE + 1);
    NumbersNew(MAX_CONFIGURABLE_MEASURE + 1);
    hide NewIn, MetricsFor;
    manager := new PropertyConfigurationManager(0);
    once := manager.RegisterPropertyConfiguration(name, severityExpression, ids);
    ghost var n := |manager.propertyConfigurations[name].metricList|;
    assert ids[..n] == Numbers(n);
    NumbersNew(n);
    again := manager.RegisterPropertyConfiguration(name, severityExpression, ids);
  }
}
