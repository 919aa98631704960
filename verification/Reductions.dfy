/** Reducing the measurements of a window of iterations when some iterations have none. */
module Reductions {
  import opened Sequences
  import opened SortedSets

  /** The value of a metric in each iteration that has one. */
  type Entry = map<int, int>

  datatype Interpolation = Constant | Linear | Zeros

  datatype Reduction = Sum | SumSqr | SumDev

  // ----- what a reduction means -------------------------------------------------------------

  /** Halves, rounding toward zero. */
  function Half(a: int): (h: int)
    ensures -1 <= a - 2 * h <= 1 && if a >= 0 then 0 <= 2 * h <= a else a <= 2 * h <= 0
  {
    if a >= 0 then a / 2 else -((-a) / 2)
  }

  /** `k` is the last iteration before `i` with a value. */
  ghost predicate LastBefore(d: Entry, i: int, k: int) {
    k in d && k < i && forall k' :: k' in d && k' < i ==> k' <= k
  }

  /** `k` is the first iteration from `i` on with a value. */
  ghost predicate FirstFrom(d: Entry, i: int, k: int) {
    k in d && i <= k && forall k' :: k' in d && i <= k' ==> k <= k'
  }

  /** The last value stored before iteration `i`, or 0. */
  ghost function Before(d: Entry, i: int): int {
    if exists k :: LastBefore(d, i, k) then var k :| LastBefore(d, i, k); d[k] else 0
  }

  /** The first value stored from iteration `i` on, or 0. */
  ghost function From(d: Entry, i: int): int {
    if exists k :: FirstFrom(d, i, k) then var k :| FirstFrom(d, i, k); d[k] else 0
  }

  ghost predicate StoredWithin(d: Entry, lo: int, hi: int) {
    exists k :: k in d && lo <= k < hi
  }

  /** The value that iteration `i` counts with in the window from `left` to before `right`: the
      stored one; or else nothing, or for constant interpolation the mean of the values stored
      before and after it, except that behind the last value stored in the window, that value goes on. */
  ghost function Fill(d: Entry, interp: Interpolation, left: int, right: int, i: int): int {
    if i in d then d[i]
    else if interp != Constant then 0
    else if StoredWithin(d, left, i) && !StoredWithin(d, i, right) then Before(d, i)
    else Half(Before(d, i) + From(d, i))
  }

  /** What one value contributes. */
  function Term(op: Reduction, v: int, mean: real): real {
    match op
    case Sum => v as real
    case SumSqr => (v as real) * (v as real)
    case SumDev => (v as real - mean) * (v as real - mean)
  }

  /** A window, and how to count its iterations. */
  datatype Window = Window(d: Entry, interp: Interpolation, left: int, right: int)

  ghost function FillIn(w: Window, i: int): int {
    Fill(w.d, w.interp, w.left, w.right, i)
  }

  /** The contributions of the iterations from `lo` to before `hi`, each filled in on its own. */
  ghost function Total(w: Window, op: Reduction, mean: real, lo: int, hi: int): real
    decreases hi - lo
  {
    if hi <= lo then 0.0
    else Total(w, op, mean, lo, hi - 1) + Term(op, FillIn(w, hi - 1), mean)
  }

  // ----- totals of gaps ---------------------------------------------------------------------

  lemma {:induction false} TotalOfGap(w: Window, op: Reduction, mean: real, lo: int, mid: int, hi: int, v: int)
    requires lo <= mid <= hi
    requires forall i :: mid <= i < hi ==> FillIn(w, i) == v
    ensures Total(w, op, mean, lo, hi) == Total(w, op, mean, lo, mid) + Term(op, v, mean) * (hi - mid) as real
    decreases hi - mid
  {
    hide Term, Fill;
    OneMore(Term(op, v, mean), hi - mid);
    if mid < hi {
      TotalOfGap(w, op, mean, lo, mid, hi - 1, v);
    }
  }

  lemma OneMore(t: real, n: int)
    ensures t * n as real == t * (n - 1) as real + t
    ensures n == 0 ==> t * n as real == 0.0
  {
    assert n as real == (n - 1) as real + 1.0;
  }

  /** The value in a gap whose neighbours are known. */
  function GapValue(interp: Interpolation, leftY: int, rightY: int): int {
    if interp == Constant then Half(leftY + rightY) else 0
  }

  /** What a gap contributes that ends before `rightX`: nothing if it is empty. */
  method InterpolateAndReduce(leftX: int, leftY: int, rightX: int, rightY: int,
                              op: Reduction, interp: Interpolation, mean: real) returns (result: real)
    ensures result == if rightX <= leftX then 0.0
                      else Term(op, GapValue(interp, leftY, rightY), mean) * (rightX - leftX) as real
  {
    var value := 0;
    match interp {
      case Linear => value := 0;
      case Constant => value := Half(leftY + rightY);
      case Zeros => value := 0;
    }
    var numPoints := rightX - leftX;
    if numPoints <= 0 {
      return 0.0;
    }
    match op {
      case Sum => result := value as real * numPoints as real;
      case SumDev => result := (value as real - mean) * (value as real - mean) * numPoints as real;
      case SumSqr => result := (value as real) * (value as real) * numPoints as real;
    }
  }

  // ----- without interpolation --------------------------------------------------------------

  ghost function SumOver(d: Entry, s: set<int>): int
    requires s <= d.Keys
  {
    if s == {} then 0
    else
      NonEmpty(s);
      var x :| x in s;
      d[x] + SumOver(d, s - {x})
  }

  lemma {:induction false} SumOverAny(d: Entry, s: set<int>, x: int)
    requires s <= d.Keys && x in s
    ensures SumOver(d, s) == d[x] + SumOver(d, s - {x})
    decreases s
  {
    NonEmpty(s);
    var y :| y in s && SumOver(d, s) == d[y] + SumOver(d, s - {y});
    if y != x {
      SumOverAny(d, s - {y}, x);
      SumOverAny(d, s - {x}, y);
      assert s - {y} - {x} == s - {x} - {y};
    }
  }

  ghost function StoredIn(d: Entry, lo: int, hi: int): set<int> {
    set k | k in d && lo <= k < hi
  }

  /** Unless gaps are filled with a constant, a window sums up just what is stored in it. */
  lemma {:induction false} TotalOfStored(w: Window, lo: int, hi: int)
    requires w.interp != Constant && lo <= hi
    ensures Total(w, Sum, 0.0, lo, hi) == SumOver(w.d, StoredIn(w.d, lo, hi)) as real
    decreases hi - lo
  {
    if lo < hi {
      TotalOfStored(w, lo, hi - 1);
      var now, before := StoredIn(w.d, lo, hi), StoredIn(w.d, lo, hi - 1);
      if hi - 1 in w.d {
        assert now - {hi - 1} == before;
        SumOverAny(w.d, now, hi - 1);
      } else {
        assert now == before;
      }
    } else {
      assert StoredIn(w.d, lo, hi) == {};
    }
  }

  // ----- the keys in order ------------------------------------------------------------------

  /** `ks` lists the keys of `d` in ascending order. */
  ghost predicate KeysInOrder(d: Entry, ks: seq<int>) {
    Ascending(ks) && Elems(ks) == d.Keys
  }

  /** Keys `ks[j - 1]` and `ks[j]` are neighbours around the gap that `i` is in. */
  ghost predicate Around(ks: seq<int>, j: nat, i: int) {
    && j <= |ks|
    && (j > 0 ==> ks[j - 1] < i)
    && (j < |ks| ==> i < ks[j])
  }

  lemma AroundGap(d: Entry, ks: seq<int>, j: nat, i: int)
    requires KeysInOrder(d, ks) && Around(ks, j, i)
    ensures i !in d
    ensures j > 0 ==> LastBefore(d, i, ks[j - 1])
    ensures j < |ks| ==> FirstFrom(d, i, ks[j])
    ensures j == 0 ==> forall k :: k in d ==> i < k
    ensures j == |ks| ==> forall k :: k in d ==> k < i
  {
    forall k | k in d
      ensures exists m :: 0 <= m < |ks| && ks[m] == k
    {
      assert k in Elems(ks);
    }
    assert forall m :: 0 <= m < |ks| ==> ks[m] in Elems(ks);
  }

  lemma InGap(d: Entry, ks: seq<int>, j: nat, i: int)
    requires KeysInOrder(d, ks) && Around(ks, j, i)
    ensures i !in d
    ensures Before(d, i) == if j > 0 then d[ks[j - 1]] else 0
    ensures From(d, i) == if j < |ks| then d[ks[j]] else 0
    ensures forall lo :: StoredWithin(d, lo, i) <==> j > 0 && lo <= ks[j - 1]
    ensures forall hi :: StoredWithin(d, i, hi) <==> j < |ks| && ks[j] < hi
  {
    hide KeysInOrder;
    AroundGap(d, ks, j, i);
    assert j > 0 ==> LastBefore(d, i, ks[j - 1]);
  }

  // ----- the reduction loop -----------------------------------------------------------------

  /** The three reductions are computed side by side. */
  datatype Sums = Sums(sum: real, sumSqr: real, dev: real)

  ghost predicate UpTo(w: Window, mean: real, sums: Sums, hi: int) {
    && sums.sum == Total(w, Sum, 0.0, w.left, hi)
    && sums.sumSqr == Total(w, SumSqr, 0.0, w.left, hi)
    && sums.dev == Total(w, SumDev, mean, w.left, hi)
  }

  function Plus(sums: Sums, y: real, mean: real): Sums {
    Sums(sums.sum + y, sums.sumSqr + y * y, sums.dev + (y - mean) * (y - mean))
  }

  ghost function AfterGap(sums: Sums, v: int, n: nat, mean: real): Sums {
    Sums(sums.sum + Term(Sum, v, 0.0) * n as real,
         sums.sumSqr + Term(SumSqr, v, 0.0) * n as real,
         sums.dev + Term(SumDev, v, mean) * n as real)
  }

  method AddGap(sums: Sums, leftX: int, leftY: int, rightX: int, rightY: int, interp: Interpolation, mean: real)
    returns (r: Sums)
    requires leftX <= rightX
    ensures r == AfterGap(sums, GapValue(interp, leftY, rightY), rightX - leftX, mean)
  {
    var sum := InterpolateAndReduce(leftX, leftY, rightX, rightY, Sum, interp, 0.0);
    var sumSqr := InterpolateAndReduce(leftX, leftY, rightX, rightY, SumSqr, interp, 0.0);
    var dev := InterpolateAndReduce(leftX, leftY, rightX, rightY, SumDev, interp, mean);
    r := Sums(sums.sum + sum, sums.sumSqr + sumSqr, sums.dev + dev);
    var v := GapValue(interp, leftY, rightY);
    OneMore(Term(Sum, v, 0.0), rightX - leftX);
    OneMore(Term(SumSqr, v, 0.0), rightX - leftX);
    OneMore(Term(SumDev, v, mean), rightX - leftX);
  }

  lemma UpToGap(w: Window, mean: real, sums: Sums, mid: int, hi: int, v: int)
    requires w.left <= mid <= hi && UpTo(w, mean, sums, mid)
    requires forall i :: mid <= i < hi ==> FillIn(w, i) == v
    ensures UpTo(w, mean, AfterGap(sums, v, hi - mid, mean), hi)
  {
    hide Fill, Term, Total;
    TotalOfGap(w, Sum, 0.0, w.left, mid, hi, v);
    TotalOfGap(w, SumSqr, 0.0, w.left, mid, hi, v);
    TotalOfGap(w, SumDev, mean, w.left, mid, hi, v);
  }

  lemma UpToOne(w: Window, mean: real, sums: Sums, i: int)
    requires w.left <= i && UpTo(w, mean, sums, i) && i in w.d
    ensures UpTo(w, mean, Plus(sums, w.d[i] as real, mean), i + 1)
  {
  }

  /** The first `j` keys lie before the window. */
  ghost predicate Rolled(w: Window, ks: seq<int>, j: nat) {
    && j <= |ks|
    && (forall m :: 0 <= m < j ==> ks[m] < w.left)
    && (j < |ks| ==> ks[j] >= w.left)
  }

  /** The iterations before the first value of the window, or all of them. */
  lemma FirstGap(w: Window, ks: seq<int>, j: nat, limit: int)
    requires KeysInOrder(w.d, ks) && Rolled(w, ks, j) && w.left <= w.right
    requires limit == if j < |ks| && ks[j] <= w.right then ks[j] else w.right
    ensures forall i :: w.left <= i < limit ==>
              FillIn(w, i) ==
              GapValue(w.interp, if j > 0 then w.d[ks[j - 1]] else 0, if j < |ks| then w.d[ks[j]] else 0)
  {
    KeyMembers(w.d, ks);
    forall i | w.left <= i < limit
      ensures FillIn(w, i)
           == GapValue(w.interp, if j > 0 then w.d[ks[j - 1]] else 0, if j < |ks| then w.d[ks[j]] else 0)
    {
      hide KeysInOrder, Before, From;
      assert j < |ks| ==> i < ks[j];
      InGap(w.d, ks, j, i);
    }
  }

  lemma KeyMembers(d: Entry, ks: seq<int>)
    requires KeysInOrder(d, ks)
    ensures forall m :: 0 <= m < |ks| ==> ks[m] in d
  {
    assert forall m :: 0 <= m < |ks| ==> ks[m] in Elems(ks);
  }

  /** The iterations between two values of the window. */
  lemma MiddleGap(w: Window, ks: seq<int>, j: nat)
    requires KeysInOrder(w.d, ks) && 0 < j < |ks| && w.left <= ks[j - 1] && ks[j] < w.right
    ensures ks[j - 1] in w.d && ks[j] in w.d && ks[j - 1] < ks[j]
    ensures forall i :: ks[j - 1] < i < ks[j] ==>
              FillIn(w, i) == GapValue(w.interp, w.d[ks[j - 1]], w.d[ks[j]])
  {
    KeyMembers(w.d, ks);
    forall i | ks[j - 1] < i < ks[j]
      ensures FillIn(w, i) == GapValue(w.interp, w.d[ks[j - 1]], w.d[ks[j]])
    {
      hide KeysInOrder, Before, From;
      InGap(w.d, ks, j, i);
    }
  }

  /** The iterations behind the last value of the window. */
  lemma LastGap(w: Window, ks: seq<int>, j: nat)
    requires KeysInOrder(w.d, ks) && 0 < j <= |ks| && w.left <= ks[j - 1] && (j < |ks| ==> ks[j] >= w.right)
    ensures ks[j - 1] in w.d
    ensures forall i :: ks[j - 1] < i < w.right ==>
              FillIn(w, i) == GapValue(w.interp, w.d[ks[j - 1]], w.d[ks[j - 1]])
  {
    KeyMembers(w.d, ks);
    forall i | ks[j - 1] < i < w.right
      ensures FillIn(w, i) == GapValue(w.interp, w.d[ks[j - 1]], w.d[ks[j - 1]])
    {
      hide KeysInOrder, Before, From;
      InGap(w.d, ks, j, i);
    }
  }

  /** The loop has passed the keys from `first` to before `j`, and taken those before `p`; the
      iterations up to the last key it took, or up to `limit` if it took none, are counted. */
  ghost predicate Passed(w: Window, ks: seq<int>, first: nat, p: nat, j: nat, limit: int,
                         lastX: int, lastY: int, mean: real, sums: Sums, num: int)
  {
    && first <= p <= j <= |ks| && Rolled(w, ks, first) && KeysInOrder(w.d, ks)
    && limit == (if first < |ks| && ks[first] <= w.right then ks[first] else w.right)
    && w.left <= limit <= w.right
    && (forall m :: first <= m < p ==> ks[m] < w.right)
    && (p < j ==> ks[p] >= w.right)
    && (if p == first then lastX == limit && UpTo(w, mean, sums, limit) && num == limit - w.left
        else && lastX == ks[p - 1] && lastX in w.d && lastY == w.d[lastX]
             && UpTo(w, mean, sums, lastX + 1) && num == lastX + 1 - w.left)
  }

  lemma RolledKeys(w: Window, ks: seq<int>, first: nat, j: nat)
    requires Rolled(w, ks, first) && KeysInOrder(w.d, ks) && first <= j < |ks|
    ensures w.left <= ks[first] <= ks[j] && ks[j] in w.d
  {
    KeyMembers(w.d, ks);
  }

  lemma SkipKey(w: Window, ks: seq<int>, first: nat, p: nat, j: nat, limit: int, lastX: int, lastY: int, mean: real,
                sums: Sums, num: int)
    requires Passed(w, ks, first, p, j, limit, lastX, lastY, mean, sums, num) && j < |ks| && ks[j] >= w.right
    ensures Passed(w, ks, first, p, j + 1, limit, lastX, lastY, mean, sums, num)
  {
  }

  /** Takes in the value of key `j`, and the gap before it. */
  method TakeKey(ghost w: Window, ks: seq<int>, ghost first: nat, j: nat, ghost limit: int,
                 lastLeftX: int, lastLeftY: int, mean: real, sums0: Sums, num0: int, dataEntry: Entry,
                 interp: Interpolation)
      returns (sums: Sums, num: int)
    requires w.d == dataEntry && w.interp == interp
    requires Passed(w, ks, first, j, j, limit, lastLeftX, lastLeftY, mean, sums0, num0) && j < |ks| && ks[j] < w.right
    requires ks[j] in dataEntry
    ensures Passed(w, ks, first, j + 1, j + 1, limit, ks[j], dataEntry[ks[j]], mean, sums, num)
  {
    hide KeysInOrder, FillIn, Total, Term, UpTo, GapValue, Rolled, Plus;
    sums, num := sums0, num0;
    RolledKeys(w, ks, first, j);
    if j > first {
      RolledKeys(w, ks, first, j - 1);
      MiddleGap(w, ks, j);
    }
    if ks[j] - lastLeftX > 1 {
      UpToGap(w, mean, sums, lastLeftX + 1, ks[j], GapValue(interp, lastLeftY, dataEntry[ks[j]]));
      sums := AddGap(sums, lastLeftX, lastLeftY, ks[j] - 1, dataEntry[ks[j]], interp, mean);
      num := num + (ks[j] - lastLeftX - 1);
    }
    num := num + 1;
    UpToOne(w, mean, sums, ks[j]);
    sums := Plus(sums, dataEntry[ks[j]] as real, mean);
  }

  /** Rolls to the first key of the window. */
  method RollTo(left: int, ks: seq<int>, dataEntry: Entry, ghost w: Window) returns (j: nat, lastLeftY: int)
    requires w.left == left && w.d == dataEntry && KeysInOrder(dataEntry, ks)
    requires forall m :: 0 <= m < |ks| ==> ks[m] in dataEntry
    ensures Rolled(w, ks, j) && lastLeftY == if j > 0 then dataEntry[ks[j - 1]] else 0
  {
    hide KeysInOrder;
    j, lastLeftY := 0, 0;
    while j < |ks| && ks[j] < left
      invariant 0 <= j <= |ks| && forall m :: 0 <= m < j ==> ks[m] < left
      invariant lastLeftY == if j > 0 then dataEntry[ks[j - 1]] else 0
    {
      lastLeftY := dataEntry[ks[j]];
      j := j + 1;
    }
  }

  /** Reduces the window: the number of iterations counted is the length of the window, and the
      reductions are the totals over its iterations, each filled in on its own. */
  method GetReductions(left: int, right: int, interp: Interpolation, dataEntry: Entry, mean: real)
      returns (sums: Sums, numElements: int)
    requires left <= right
    ensures numElements == right - left
    ensures UpTo(Window(dataEntry, interp, left, right), mean, sums, right)
  {
    hide FillIn, Total, Term, UpTo, GapValue;
    ghost var w := Window(dataEntry, interp, left, right);
    var ks := InOrder(dataEntry.Keys);
    KeyMembers(dataEntry, ks);
    hide KeysInOrder;
    var j, lastLeftY := RollTo(left, ks, dataEntry, w);
    ghost var first := j;

    var rightLimit, rightY := right, 0;
    if j < |ks| {
      rightY := dataEntry[ks[j]];
      rightLimit := if ks[j] <= right then ks[j] else right;
    }
    NothingYet(w, mean);
    FirstGap(w, ks, j, rightLimit);
    UpToGap(w, mean, Sums(0.0, 0.0, 0.0), left, rightLimit, GapValue(interp, lastLeftY, rightY));
    sums := AddGap(Sums(0.0, 0.0, 0.0), left, lastLeftY, rightLimit, rightY, interp, mean);
    numElements := rightLimit - left;
    var lastLeftX := rightLimit;

    ghost var p: nat := j;
    while j < |ks|
      invariant Passed(w, ks, first, p, j, rightLimit, lastLeftX, lastLeftY, mean, sums, numElements)
    {
      RolledKeys(w, ks, first, j);
      if p < j {
        KeysGrow(w.d, ks, p, j);
      }
      if ks[j] >= left && ks[j] < right {
        sums, numElements :=
          TakeKey(w, ks, first, j, rightLimit, lastLeftX, lastLeftY, mean, sums, numElements, dataEntry, interp);
        lastLeftY, lastLeftX := dataEntry[ks[j]], ks[j];
        p := j + 1;
      } else {
        SkipKey(w, ks, first, p, j, rightLimit, lastLeftX, lastLeftY, mean, sums, numElements);
      }
      if ks[j] > right {
        break;
      }
      j := j + 1;
    }

    if right - lastLeftX > 1 {
      LastGap(w, ks, p);
      UpToGap(w, mean, sums, lastLeftX + 1, right, GapValue(interp, lastLeftY, lastLeftY));
      sums := AddGap(sums, lastLeftX, lastLeftY, right - 1, lastLeftY, interp, mean);
      numElements := numElements + (right - lastLeftX - 1);
    }
  }

  lemma KeysGrow(d: Entry, ks: seq<int>, p: nat, j: nat)
    requires KeysInOrder(d, ks) && p < j < |ks|
    ensures ks[p] < ks[j]
  {
  }

  lemma NothingYet(w: Window, mean: real)
    ensures UpTo(w, mean, Sums(0.0, 0.0, 0.0), w.left)
  {
  }
}
