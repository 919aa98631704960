/** The store of measurements: per metric and context one value per iteration, and a window of
    iterations that queries look at. */
module PerformanceDataBase {
  import opened SortedSets
  import opened Reductions
  import opened Sequences

  datatype QueryResult = Success(value: int) | NotFound

  datatype ListResult = AllValues(values: seq<int>) | NoEntry

  datatype Outcome = Done | InvalidArgument

  /** The last value stored up to iteration `i`, or 0. */
  ghost function ValueAt(d: Entry, i: int): int {
    Before(d, i + 1)
  }

  class DataBase {
    var data: map<string, Entry>
    var timeWindowLeft: int
    var timeWindowRight: int
    var lastWrittenIteration: int
    var defaultOp: Reduction
    var interpType: Interpolation

    /** The window is one that `SetTimeWindow` would accept, and iterations are never negative. */
    ghost predicate Valid()
      reads this
    {
      && 0 <= timeWindowLeft <= timeWindowRight <= lastWrittenIteration + 1
      && forall key :: key in data ==> data[key] != map[] && forall k :: k in data[key] ==> k >= 0
    }

    constructor ()
      ensures Valid() && data == map[] && lastWrittenIteration == 0
      ensures defaultOp == Sum && interpType == Zeros
    {
      data := map[];
      timeWindowLeft, timeWindowRight, lastWrittenIteration := 0, 0, 0;
      defaultOp, interpType := Sum, Zeros;
    }

    /** Moves the window; a window that reaches past the last written iteration is refused. */
    method SetTimeWindow(begin: int, end: int) returns (outcome: Outcome)
      requires Valid()
      modifies this`timeWindowLeft, this`timeWindowRight
      ensures Valid()
      ensures outcome == Done <==> 0 <= begin <= end <= lastWrittenIteration + 1
      ensures if outcome == Done then timeWindowLeft == begin && timeWindowRight == end
              else timeWindowLeft == old(timeWindowLeft) && timeWindowRight == old(timeWindowRight)
    {
      if timeWindowLeft == begin && timeWindowRight == end {
        return Done;
      }
      if end - begin < 0 || end - 1 > lastWrittenIteration || begin < 0 {
        return InvalidArgument;
      }
      timeWindowLeft, timeWindowRight := begin, end;
      outcome := Done;
    }

    /** Stores a value for the current iteration.  This never fails, and unless the iteration lies
        before one already written, the window then shows just this iteration. */
    method Store(key: string, value: int, currentIteration: int) returns (outcome: Outcome)
      requires Valid() && currentIteration >= 0
      modifies this`data, this`lastWrittenIteration, this`timeWindowLeft, this`timeWindowRight
      ensures Valid() && outcome == Done
      ensures data == old(data)[key := (if key in old(data) then old(data)[key] else map[])[currentIteration := value]]
      ensures lastWrittenIteration == if currentIteration >= old(lastWrittenIteration) then currentIteration
                                      else old(lastWrittenIteration)
      ensures if currentIteration >= old(lastWrittenIteration)
              then timeWindowLeft == currentIteration && timeWindowRight == currentIteration + 1
              else timeWindowLeft == old(timeWindowLeft) && timeWindowRight == old(timeWindowRight)
    {
      outcome := Done;
      if currentIteration >= lastWrittenIteration {
        lastWrittenIteration := currentIteration;
        outcome := SetTimeWindow(lastWrittenIteration, lastWrittenIteration + 1);
      }
      if key !in data {
        data := data[key := map[]];
      }
      data := data[key := data[key][currentIteration := value]];
      assert currentIteration in data[key];
    }

    method FindDataEntry(key: string) returns (found: bool, entry: Entry)
      requires Valid()
      ensures found == (key in data)
      ensures found ==> entry == data[key]
    {
      if key !in data {
        return false, map[];
      }
      entry := data[key];
      found := entry != map[];
    }

    /** The sum, or the sum of squares, over a window. */
    method GetReducedValueInWindow(op: Reduction, interp: Interpolation, left: int, right: int, key: string)
      returns (r: QueryResult)
      requires Valid() && left <= right && op != SumDev
      ensures r.Success? <==> key in data
      ensures r.Success? ==> r.value as real == Total(Window(data[key], interp, left, right), op, 0.0, left, right)
    {
      var found, entry := FindDataEntry(key);
      if !found {
        return NotFound;
      }
      var sums, _ := GetReductions(left, right, interp, entry, 0.0);
      ghost var w := Window(entry, interp, left, right);
      ghost var sum := TotalIsWhole(w, Sum, left, right);
      ghost var sumSqr := TotalIsWhole(w, SumSqr, left, right);
      r := Success(if op == Sum then sums.sum.Floor else sums.sumSqr.Floor);
    }

    /** What the default query reports of an entry. */
    ghost function InWindow(d: Entry): real
      reads this
    {
      Total(Window(d, interpType, timeWindowLeft, timeWindowRight), defaultOp, 0.0, timeWindowLeft, timeWindowRight)
    }

    /** The value of the default query: 0 when there is no entry. */
    method Get(key: string) returns (value: int)
      requires Valid() && defaultOp != SumDev
      ensures key !in data ==> value == 0
      ensures key in data ==> value as real == InWindow(data[key])
    {
      var r := GetReducedValueInWindow(defaultOp, interpType, timeWindowLeft, timeWindowRight, key);
      value := match r case Success(v) => v case NotFound => 0;
    }

    /** A value just stored is what the default query returns. */
    method StoreThenGet(key: string, value: int, currentIteration: int) returns (got: int)
      requires Valid() && currentIteration >= lastWrittenIteration && currentIteration >= 0 && defaultOp == Sum
      modifies this`data, this`lastWrittenIteration, this`timeWindowLeft, this`timeWindowRight
      ensures Valid() && got == value
    {
      var outcome := Store(key, value, currentIteration);
      ghost var w := Window(data[key], interpType, timeWindowLeft, timeWindowRight);
      assert Total(w, Sum, 0.0, currentIteration, currentIteration) == 0.0;
      assert FillIn(w, currentIteration) == value;
      got := Get(key);
    }

    /** One value for each iteration from 0 on: the last one stored up to then, or 0. */
    method GetAllIterationsValues(key: string, iterationsTillNow: int) returns (r: ListResult)
      requires Valid()
      ensures r.AllValues? <==> key in data
      ensures r.AllValues? ==>
                && (forall i :: 0 <= i < |r.values| ==> r.values[i] == ValueAt(data[key], i))
                && (forall k :: k in data[key] ==> k < |r.values|)
                && iterationsTillNow <= |r.values|
                && (|r.values| == iterationsTillNow || |r.values| - 1 in data[key] || |r.values| == 0)
    {
      var found, entry := FindDataEntry(key);
      if !found {
        return NoEntry;
      }
      var ks := InOrder(entry.Keys);
      KeyMembers(entry, ks);
      var out: seq<int>, lastValue := [], 0;
      for j := 0 to |ks|
        invariant |out| == if j > 0 then ks[j - 1] + 1 else 0
        invariant lastValue == if j > 0 then entry[ks[j - 1]] else 0
        invariant forall i :: 0 <= i < |out| ==> out[i] == ValueAt(entry, i)
      {
        var value := entry[ks[j]];
        out := FillGap(out, ks[j], lastValue, entry, ks, j);
        AtKey(entry, ks, j);
        out := out + [value];
        lastValue := value;
      }
      out := FillGap(out, iterationsTillNow, lastValue, entry, ks, |ks|);
      forall k | k in entry
        ensures k < |out|
      {
        assert k in Elems(ks);
      }
      r := AllValues(out);
    }
  }

  /** Repeats the last value up to before iteration `end`, which lies in the gap after key `j - 1`. */
  method FillGap(out0: seq<int>, end: int, lastValue: int, ghost d: Entry, ghost ks: seq<int>, ghost j: nat)
    returns (out: seq<int>)
    requires KeysInOrder(d, ks) && j <= |ks| && (forall m :: 0 <= m < |ks| ==> ks[m] in d && ks[m] >= 0)
    requires |out0| == if j > 0 then ks[j - 1] + 1 else 0
    requires j < |ks| ==> end <= ks[j]
    requires lastValue == if j > 0 then d[ks[j - 1]] else 0
    requires forall i :: 0 <= i < |out0| ==> out0[i] == ValueAt(d, i)
    ensures |out| == if end > |out0| then end else |out0|
    ensures forall i :: 0 <= i < |out| ==> out[i] == ValueAt(d, i)
  {
    out := out0;
    var i := |out0|;
    while i < end
      invariant i == |out| && (|out| == |out0| || |out| <= end)
      invariant forall i :: 0 <= i < |out| ==> out[i] == ValueAt(d, i)
    {
      InGapValue(d, ks, j, i);
      out := out + [lastValue];
      i := i + 1;
    }
  }

  lemma InGapValue(d: Entry, ks: seq<int>, j: nat, i: int)
    requires KeysInOrder(d, ks) && Around(ks, j, i)
    requires forall m :: 0 <= m < |ks| ==> ks[m] in d
    ensures ValueAt(d, i) == if j > 0 then d[ks[j - 1]] else 0
  {
    AroundGap(d, ks, j, i);
    assert j > 0 ==> LastBefore(d, i + 1, ks[j - 1]);
  }

  lemma AtKey(d: Entry, ks: seq<int>, j: nat)
    requires KeysInOrder(d, ks) && j < |ks|
    ensures ks[j] in d && ValueAt(d, ks[j]) == d[ks[j]]
  {
    KeyMembers(d, ks);
    assert LastBefore(d, ks[j] + 1, ks[j]);
  }

  lemma TermIsWhole(op: Reduction, v: int) returns (n: int)
    requires op != SumDev
    ensures Term(op, v, 0.0) == n as real
  {
    n := if op == Sum then v else v * v;
  }

  /** Sums and sums of squares of whole numbers are whole, so converting them loses nothing. */
  lemma {:induction false} TotalIsWhole(w: Window, op: Reduction, lo: int, hi: int) returns (n: int)
    requires op != SumDev
    ensures Total(w, op, 0.0, lo, hi) == n as real
    decreases hi - lo
  {
    hide Term, FillIn;
    if lo < hi {
      var before := TotalIsWhole(w, op, lo, hi - 1);
      var last := TermIsWhole(op, FillIn(w, hi - 1));
      n := before + last;
    } else {
      n := 0;
    }
  }
}
