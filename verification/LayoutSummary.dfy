/** Aggregation of the active files of a Delta table into partitions and size statistics.

    A file is known by its partition, its size, and its row count if the log has one.
 */
module LayoutSummary {
  import opened Ordering

  datatype Option<T> = None | Some(value: T)

  /** The text of a partition's values, such as `day=1`, or of an unpartitioned table. */
  datatype Key = Key(text: string)

  datatype Action = Action(partition: Key, size: int, records: Option<int>)

  datatype Tally = Tally(files: int, bytes: int, rows: int, filesWithRows: int)

  datatype PartitionRow = PartitionRow(partition: Key, files: int, bytes: int, rows: Option<int>)

  datatype Sizes = Sizes(minimum: int, median: int, p95: int, maximum: int, average: int)

  datatype Summary = Summary(
    rowCount: Option<int>, totalBytes: int, fileCount: nat, sizes: Sizes, verySmall: nat, partitions: seq<PartitionRow>)

  // ---------------------------------------------------------------------------
  // Weighing files
  // ---------------------------------------------------------------------------

  function One(a: Action): int { 1 }

  function Bytes(a: Action): int { a.size }

  function Rows(a: Action): int { if a.records.Some? then a.records.value else 0 }

  function HasRows(a: Action): int { if a.records.Some? then 1 else 0 }

  function Weigh(actions: seq<Action>, weight: Action -> int): int
    decreases |actions|
  {
    if actions == [] then 0 else weight(actions[0]) + Weigh(actions[1..], weight)
  }

  lemma {:induction false} WeighJoin(xs: seq<Action>, ys: seq<Action>, weight: Action -> int)
    ensures Weigh(xs + ys, weight) == Weigh(xs, weight) + Weigh(ys, weight)
    decreases |xs|
  {
    if xs == [] {
      assert xs + ys == ys;
    } else {
      assert (xs + ys)[1..] == xs[1..] + ys;
      WeighJoin(xs[1..], ys, weight);
    }
  }

  /** The files of one partition. */
  function Within(actions: seq<Action>, partition: Key): seq<Action>
    decreases |actions|
  {
    if actions == [] then []
    else (if actions[0].partition == partition then [actions[0]] else []) + Within(actions[1..], partition)
  }

  lemma {:induction false} WithinJoin(xs: seq<Action>, ys: seq<Action>, partition: Key)
    ensures Within(xs + ys, partition) == Within(xs, partition) + Within(ys, partition)
    decreases |xs|
  {
    if xs == [] {
      assert xs + ys == ys;
    } else {
      assert (xs + ys)[1..] == xs[1..] + ys;
      WithinJoin(xs[1..], ys, partition);
    }
  }

  lemma {:induction false} WithinElements(actions: seq<Action>, partition: Key)
    ensures forall a :: a in Within(actions, partition) <==> a in actions && a.partition == partition
    decreases |actions|
  {
    if actions == [] {
    } else {
      WithinElements(actions[1..], partition);
      assert actions == [actions[0]] + actions[1..];
    }
  }

  /** The weights of some partitions, added up partition by partition. */
  function WeighPartitions(keys: seq<Key>, actions: seq<Action>, weight: Action -> int): int
    decreases |keys|
  {
    if keys == [] then 0
    else Weigh(Within(actions, keys[0]), weight) + WeighPartitions(keys[1..], actions, weight)
  }

  ghost predicate NoRepeats(keys: seq<Key>) {
    forall k :: multiset(keys)[k] <= 1
  }

  lemma {:induction false} OneMoreFile(keys: seq<Key>, a: Action, rest: seq<Action>, weight: Action -> int)
    requires NoRepeats(keys)
    ensures WeighPartitions(keys, [a] + rest, weight)
            == WeighPartitions(keys, rest, weight) + if a.partition in keys then weight(a) else 0
    decreases |keys|
  {
    if keys == [] {
    } else {
      assert keys == [keys[0]] + keys[1..];
      assert ([a] + rest)[1..] == rest;
      assert multiset(keys) == multiset{keys[0]} + multiset(keys[1..]);
      assert multiset(keys)[keys[0]] == 1 + multiset(keys[1..])[keys[0]];
      assert NoRepeats(keys[1..]) by {
        forall k ensures multiset(keys[1..])[k] <= 1 {
          assert multiset(keys)[k] >= multiset(keys[1..])[k];
        }
      }
      OneMoreFile(keys[1..], a, rest, weight);
      WeighJoin(if a.partition == keys[0] then [a] else [], Within(rest, keys[0]), weight);
    }
  }

  /** Adding up by partitions loses and duplicates nothing. */
  lemma {:induction false} PartitionsConserve(keys: seq<Key>, actions: seq<Action>, weight: Action -> int)
    requires NoRepeats(keys) && forall a :: a in actions ==> a.partition in keys
    ensures WeighPartitions(keys, actions, weight) == Weigh(actions, weight)
    decreases |actions|
  {
    if actions == [] {
      EmptyPartitions(keys, weight);
    } else {
      assert actions == [actions[0]] + actions[1..];
      PartitionsConserve(keys, actions[1..], weight);
      OneMoreFile(keys, actions[0], actions[1..], weight);
    }
  }

  lemma {:induction false} EmptyPartitions(keys: seq<Key>, weight: Action -> int)
    ensures WeighPartitions(keys, [], weight) == 0
    decreases |keys|
  {
    if keys == [] {
    } else {
      EmptyPartitions(keys[1..], weight);
    }
  }

  lemma {:induction false} RowsAreComplete(actions: seq<Action>)
    ensures 0 <= Weigh(actions, HasRows) <= |actions|
    ensures Weigh(actions, HasRows) == |actions| <==> forall a :: a in actions ==> a.records.Some?
    decreases |actions|
  {
    if actions == [] {
    } else {
      RowsAreComplete(actions[1..]);
      assert actions == [actions[0]] + actions[1..];
    }
  }

  // ---------------------------------------------------------------------------
  // Order statistics
  // ---------------------------------------------------------------------------

  predicate AtMost(a: int, b: int) { a <= b }

  function Ordered(values: seq<int>): seq<int> { Sort(values, AtMost) }

  lemma OrderedAscends(values: seq<int>)
    ensures |Ordered(values)| == |values| && Ascending(Ordered(values), AtMost)
    ensures forall x :: x in Ordered(values) <==> x in values
  {
    SortArranges(AtMost, values);
  }

  function CountAtMost(values: seq<int>, bound: int): nat
    decreases |values|
  {
    if values == [] then 0 else (if values[0] <= bound then 1 else 0) + CountAtMost(values[1..], bound)
  }

  lemma {:induction false} CountInserted(x: int, xs: seq<int>, bound: int)
    ensures CountAtMost(Insert(x, xs, AtMost), bound) == CountAtMost([x] + xs, bound)
  {
    if xs == [] || AtMost(x, xs[0]) {
    } else {
      CountInserted(x, xs[1..], bound);
      assert ([x] + xs)[1..] == xs && ([x] + xs[1..])[1..] == xs[1..];
    }
  }

  lemma {:induction false} CountOrdered(values: seq<int>, bound: int)
    ensures CountAtMost(Ordered(values), bound) == CountAtMost(values, bound)
  {
    if values == [] {
    } else {
      CountOrdered(values[1..], bound);
      CountInserted(values[0], Ordered(values[1..]), bound);
    }
  }

  /** In an ascending sequence, those at most the bound come first. */
  lemma {:induction false} CountByPosition(ordered: seq<int>, bound: int, m: nat)
    requires m <= |ordered|
    ensures (forall j :: 0 <= j < m ==> ordered[j] <= bound) ==> CountAtMost(ordered, bound) >= m
    ensures (forall j :: m <= j < |ordered| ==> ordered[j] > bound) ==> CountAtMost(ordered, bound) <= m
    decreases |ordered|
  {
    if ordered == [] {
    } else {
      CountByPosition(ordered[1..], bound, if m == 0 then 0 else m - 1);
      assert forall j :: 0 < j < |ordered| ==> ordered[j] == ordered[1..][j - 1];
    }
  }

  function CeilingDivide(a: nat, b: nat): nat
    requires b > 0
  {
    (a + b - 1) / b
  }

  function Rank(n: nat, num: nat, den: nat): (i: nat)
    requires 0 < n && 0 < den && num <= den
    ensures i < n
  {
    var c := CeilingDivide(num * n, den);
    RankBounds(n, num, den);
    if c == 0 then 0 else c - 1
  }

  lemma RankBounds(n: nat, num: nat, den: nat)
    requires 0 < n && 0 < den && num <= den
    ensures var c := CeilingDivide(num * n, den); c <= n && c * den >= num * n && (c > 0 ==> (c - 1) * den < num * n)
  {
    var a := num * n + den - 1;
    var c := a / den;
    assert a == c * den + a % den;
    assert num * n <= den * n;
    assert c > n ==> (n + 1) * den <= c * den;
  }

  /** The `num/den` percentile, as an element of the list. */
  function NearestRank(values: seq<int>, num: nat, den: nat): int
    requires 0 < den && num <= den
  {
    if values == [] then 0 else Ordered(values)[Rank(|values|, num, den)]
  }

  /** It is the least element that at least the requested fraction of values does not exceed. */
  lemma NearestRankIsLeast(values: seq<int>, num: nat, den: nat)
    requires values != [] && 0 < den && num <= den
    ensures var v := NearestRank(values, num, den);
            && v in values && CountAtMost(values, v) * den >= num * |values|
            && forall w :: w in values && w < v ==> CountAtMost(values, w) * den < num * |values|
  {
    RankBounds(|values|, num, den);
    LeastAt(values, Rank(|values|, num, den), num * |values|, den);
  }

  /** The `i`-th element in order, by counting. */
  lemma CountsAtPosition(values: seq<int>, i: nat)
    requires i < |values|
    ensures var v := Ordered(values)[i];
            && v in values && CountAtMost(values, v) >= i + 1
            && forall w :: w in values && w < v ==> i > 0 && CountAtMost(values, w) <= i
  {
    var ordered := Ordered(values);
    OrderedAscends(values);
    assert ordered[i] in ordered;
    CountOrdered(values, ordered[i]);
    assert forall j :: 0 <= j < i ==> AtMost(ordered[j], ordered[i]);
    CountByPosition(ordered, ordered[i], i + 1);
    forall w | w in values && w < ordered[i] ensures i > 0 && CountAtMost(values, w) <= i {
      FewerBelow(values, i, w);
      IsNotFirst(values, i, w);
    }
  }

  lemma LeastAt(values: seq<int>, i: nat, target: nat, den: nat)
    requires i < |values| && (i + 1) * den >= target && (i > 0 ==> i * den < target)
    ensures var v := Ordered(values)[i];
            && v in values && CountAtMost(values, v) * den >= target
            && forall w :: w in values && w < v ==> CountAtMost(values, w) * den < target
  {
    var v := Ordered(values)[i];
    CountsAtPosition(values, i);
    EnoughOf(CountAtMost(values, v), i, den, target);
    forall w | w in values && w < v ensures CountAtMost(values, w) * den < target {
      TooFewOf(CountAtMost(values, w), i, den, target);
    }
  }

  lemma EnoughOf(count: nat, i: nat, den: nat, target: nat)
    requires i + 1 <= count && (i + 1) * den >= target
    ensures count * den >= target
  {
    assert (i + 1) * den <= count * den;
  }

  lemma TooFewOf(count: nat, i: nat, den: nat, target: nat)
    requires count <= i && i * den < target
    ensures count * den < target
  {
    assert count * den <= i * den;
  }

  lemma KeepsTotal()
    ensures TotalPreorder(AtMost)
  {
  }

  lemma IsNotFirst(values: seq<int>, i: nat, w: int)
    requires i < |values| && w in values && w < Ordered(values)[i]
    ensures i > 0
  {
    OrderedAscends(values);
    KeepsTotal();
    FirstIsLeast(Ordered(values), AtMost, w);
  }

  lemma FewerBelow(values: seq<int>, i: nat, w: int)
    requires i < |values| && w < Ordered(values)[i]
    ensures CountAtMost(values, w) <= i
  {
    var ordered := Ordered(values);
    OrderedAscends(values);
    forall j | i <= j < |ordered| ensures ordered[j] > w {
      assert i < j ==> AtMost(ordered[i], ordered[j]);
    }
    CountOrdered(values, w);
    CountByPosition(ordered, w, i);
  }

  /** Division of an `int` by two or by a count, toward zero. */
  function Truncate(a: int, b: nat): int
    requires b > 0
  {
    if a >= 0 then a / b else -((-a) / b)
  }

  lemma TruncateStaysBetween(a: int, b: nat, lo: int, hi: int)
    requires b > 0 && lo * b <= a <= hi * b
    ensures lo <= Truncate(a, b) <= hi
  {
    if a >= 0 {
      QuotientBetween(a, b, lo, hi);
    } else {
      assert (-hi) * b <= -a <= (-lo) * b;
      QuotientBetween(-a, b, -hi, -lo);
    }
  }

  lemma QuotientBetween(a: nat, b: nat, lo: int, hi: int)
    requires b > 0 && lo * b <= a <= hi * b
    ensures lo <= a / b <= hi
  {
    var q := a / b;
    assert a == q * b + a % b;
    assert q < lo ==> (q + 1) * b <= lo * b;
    assert q > hi ==> (hi + 1) * b <= q * b;
  }

  /** The middle element, or the mean of the two middle ones without its fraction. */
  function Median(values: seq<int>): int
    requires values != []
  {
    var ordered, n := Ordered(values), |values|;
    if n % 2 == 1 then ordered[n / 2] else Truncate(ordered[n / 2 - 1] + ordered[n / 2], 2)
  }

  function SumOf(values: seq<int>): int
    decreases |values|
  {
    if values == [] then 0 else values[0] + SumOf(values[1..])
  }

  function SizeStatistics(values: seq<int>): Sizes {
    if values == [] then Sizes(0, 0, 0, 0, 0)
    else
      var ordered := Ordered(values);
      Sizes(ordered[0], Median(values), NearestRank(values, 95, 100), ordered[|values| - 1],
            Truncate(SumOf(values), |values|))
  }

  lemma {:induction false} SumBetween(values: seq<int>, lo: int, hi: int)
    requires forall v :: v in values ==> lo <= v <= hi
    ensures lo * |values| <= SumOf(values) <= hi * |values|
    decreases |values|
  {
    if values == [] {
    } else {
      var rest := values[1..];
      assert values == [values[0]] + rest;
      forall v | v in rest ensures lo <= v <= hi {
        assert v in values;
      }
      SumBetween(rest, lo, hi);
      assert values[0] in values;
      assert lo * |values| == lo + lo * |rest| && hi * |values| == hi + hi * |rest|;
    }
  }

  lemma ExtremesAreAttained(values: seq<int>)
    requires values != []
    ensures var ordered, n := Ordered(values), |values|;
            && ordered[0] in values && ordered[n - 1] in values
            && (forall v :: v in values ==> ordered[0] <= v <= ordered[n - 1])
            && forall i :: 0 <= i < n ==> ordered[i] <= ordered[n - 1]
  {
    OrderedAscends(values);
    var ordered, n := Ordered(values), |values|;
    assert ordered[0] in ordered && ordered[n - 1] in ordered;
    forall i | 0 <= i < n ensures ordered[0] <= ordered[i] <= ordered[n - 1] {
      assert (i > 0 ==> AtMost(ordered[0], ordered[i])) && (i < n - 1 ==> AtMost(ordered[i], ordered[n - 1]));
    }
    forall v | v in values ensures ordered[0] <= v <= ordered[n - 1] {
      assert v in ordered;
    }
  }

  lemma SizesAreOrdered(values: seq<int>)
    requires values != []
    ensures var s := SizeStatistics(values);
            && s.minimum <= s.median <= s.p95 <= s.maximum
            && s.minimum <= s.average <= s.maximum
            && s.minimum in values && s.maximum in values
            && forall v :: v in values ==> s.minimum <= v <= s.maximum
  {
    var ordered, n := Ordered(values), |values|;
    ExtremesAreAttained(values);
    SumBetween(values, ordered[0], ordered[n - 1]);
    TruncateStaysBetween(SumOf(values), n, ordered[0], ordered[n - 1]);
    RankBounds(n, 95, 100);
    MedianIsBetween(values, Rank(n, 95, 100));
  }

  lemma MedianIsBetween(values: seq<int>, i: nat)
    requires |values| / 2 <= i < |values|
    ensures Ordered(values)[0] <= Median(values) <= Ordered(values)[i]
  {
    OrderedAscends(values);
    var ordered, n := Ordered(values), |values|;
    assert n / 2 < i ==> AtMost(ordered[n / 2], ordered[i]);
    assert 0 < n / 2 ==> AtMost(ordered[0], ordered[n / 2]);
    if n % 2 == 0 {
      assert 0 < n / 2 - 1 ==> AtMost(ordered[0], ordered[n / 2 - 1]);
      assert AtMost(ordered[n / 2 - 1], ordered[n / 2]);
      TruncateStaysBetween(ordered[n / 2 - 1] + ordered[n / 2], 2, ordered[n / 2 - 1], ordered[n / 2]);
    }
  }

  /** The element at this place of the sorted list: at most `i` elements are smaller, and more than
      `i` are not greater. */
  predicate HasRank(values: seq<int>, i: nat, v: int) {
    v in values && CountAtMost(values, v - 1) <= i < CountAtMost(values, v)
  }

  /** No other number has this rank. */
  lemma RankIsUnique(values: seq<int>, i: nat, v: int, w: int)
    requires HasRank(values, i, v) && HasRank(values, i, w)
    ensures v == w
  {
    if v < w {
      CountIsMonotone(values, v, w - 1);
    } else if w < v {
      CountIsMonotone(values, w, v - 1);
    }
  }

  lemma {:induction false} CountIsMonotone(values: seq<int>, lo: int, hi: int)
    requires lo <= hi
    ensures CountAtMost(values, lo) <= CountAtMost(values, hi)
    decreases |values|
  {
    if values == [] {
    } else {
      CountIsMonotone(values[1..], lo, hi);
    }
  }

  lemma OrderedHasRank(values: seq<int>, i: nat)
    requires i < |values|
    ensures HasRank(values, i, Ordered(values)[i])
  {
    CountsAtPosition(values, i);
    FewerBelow(values, i, Ordered(values)[i] - 1);
  }

  /** As many elements lie below the median as above it: it is the middle one, or the mean of the two
      middle ones without its fraction. */
  lemma MedianIsMiddle(values: seq<int>)
    requires values != []
    ensures var n, m := |values|, Median(values);
            if n % 2 == 1 then HasRank(values, n / 2, m)
            else
              var a, b := Ordered(values)[n / 2 - 1], Ordered(values)[n / 2];
              && HasRank(values, n / 2 - 1, a) && HasRank(values, n / 2, b)
              && (a + b >= 0 ==> 2 * m <= a + b <= 2 * m + 1)
              && (a + b <= 0 ==> 2 * m - 1 <= a + b <= 2 * m)
  {
    var n, ordered := |values|, Ordered(values);
    OrderedHasRank(values, n / 2);
    if n % 2 == 0 {
      OrderedHasRank(values, n / 2 - 1);
      TruncateIsNearest(ordered[n / 2 - 1] + ordered[n / 2], 2);
    }
  }

  /** The quotient leaves less than the divisor, on the side of zero. */
  lemma TruncateIsNearest(a: int, b: nat)
    requires b > 0
    ensures a >= 0 ==> b * Truncate(a, b) <= a < b * Truncate(a, b) + b
    ensures a <= 0 ==> b * Truncate(a, b) - b < a <= b * Truncate(a, b)
  {
    var c := if a >= 0 then a else -a;
    var q, rest := c / b, c % b;
    assert c == b * q + rest && 0 <= rest < b;
    assert a < 0 ==> b * (-q) == -(b * q);
  }

  /** The average times the number of files is their sum, up to the fraction that is cut off. */
  lemma AverageTimesCount(values: seq<int>)
    requires values != []
    ensures var n, sum, average := |values|, SumOf(values), SizeStatistics(values).average;
            && (sum >= 0 ==> n * average <= sum < n * average + n)
            && (sum <= 0 ==> n * average - n < sum <= n * average)
  {
    TruncateIsNearest(SumOf(values), |values|);
  }

  // ---------------------------------------------------------------------------
  // The summary
  // ---------------------------------------------------------------------------

  function SizesOf(actions: seq<Action>): (r: seq<int>)
    ensures |r| == |actions| && SumOf(r) == Weigh(actions, Bytes)
    decreases |actions|
  {
    if actions == [] then [] else [actions[0].size] + SizesOf(actions[1..])
  }

  /** The row counts that the log has. */
  function RowValues(actions: seq<Action>): (r: seq<int>)
    ensures |r| == Weigh(actions, HasRows) && SumOf(r) == Weigh(actions, Rows)
    decreases |actions|
  {
    if actions == [] then []
    else if actions[0].records.Some? then [actions[0].records.value] + RowValues(actions[1..])
    else RowValues(actions[1..])
  }

  function TallyOf(actions: seq<Action>): Tally {
    Tally(Weigh(actions, One), Weigh(actions, Bytes), Weigh(actions, Rows), Weigh(actions, HasRows))
  }

  function RowOf(partition: Key, t: Tally): PartitionRow {
    PartitionRow(partition, t.files, t.bytes, if t.filesWithRows == t.files then Some(t.rows) else None)
  }

  lemma {:induction false} WeighOnes(actions: seq<Action>)
    ensures Weigh(actions, One) == |actions|
    decreases |actions|
  {
    if actions == [] {
    } else {
      WeighOnes(actions[1..]);
    }
  }

  function Counted(t: Tally, a: Action): Tally {
    Tally(t.files + 1, t.bytes + a.size, t.rows + Rows(a), t.filesWithRows + HasRows(a))
  }

  lemma WeighOneMore(xs: seq<Action>, a: Action, weight: Action -> int)
    ensures Weigh(xs + [a], weight) == Weigh(xs, weight) + weight(a)
  {
    WeighJoin(xs, [a], weight);
    assert [a][1..] == [];
  }

  lemma TallyGrows(actions: seq<Action>, a: Action, partition: Key)
    ensures TallyOf(Within(actions + [a], partition))
            == if a.partition == partition then Counted(TallyOf(Within(actions, partition)), a)
               else TallyOf(Within(actions, partition))
  {
    WithinJoin(actions, [a], partition);
    assert [a][1..] == [];
    var ours := Within(actions, partition);
    assert Within([a], partition) == if a.partition == partition then [a] else [];
    assert Within(actions + [a], partition) == if a.partition == partition then ours + [a] else ours;
    WeighOneMore(ours, a, One);
    WeighOneMore(ours, a, Bytes);
    WeighOneMore(ours, a, Rows);
    WeighOneMore(ours, a, HasRows);
  }

  function TotalOf(rows: seq<PartitionRow>, column: PartitionRow -> int): int
    decreases |rows|
  {
    if rows == [] then 0 else column(rows[0]) + TotalOf(rows[1..], column)
  }

  function FilesColumn(p: PartitionRow): int { p.files }

  function BytesColumn(p: PartitionRow): int { p.bytes }

  function RowsColumn(p: PartitionRow): int { if p.rows.Some? then p.rows.value else 0 }

  lemma {:induction false} ColumnsWeigh(
    rows: seq<PartitionRow>, keys: seq<Key>, actions: seq<Action>, column: PartitionRow -> int, weight: Action -> int)
    requires |rows| == |keys|
    requires forall i :: 0 <= i < |keys| ==> column(rows[i]) == Weigh(Within(actions, keys[i]), weight)
    ensures TotalOf(rows, column) == WeighPartitions(keys, actions, weight)
    decreases |rows|
  {
    if rows == [] {
    } else {
      ColumnsWeigh(rows[1..], keys[1..], actions, column, weight);
    }
  }

  function Keys(rows: seq<PartitionRow>): (r: seq<Key>)
    ensures |r| == |rows| && forall i :: 0 <= i < |rows| ==> r[i] == rows[i].partition
  {
    seq(|rows|, i requires 0 <= i < |rows| => rows[i].partition)
  }

  ghost function Partitions(actions: seq<Action>): set<Key> {
    set a | a in actions :: a.partition
  }

  predicate KeyLe(a: Key, b: Key) { LexLe(a.text, b.text) }

  ghost predicate ListsPartitions(keys: seq<Key>, actions: seq<Action>) {
    NoRepeats(keys) && forall k :: k in keys <==> k in Partitions(actions)
  }

  ghost predicate RowsTell(rows: seq<PartitionRow>, actions: seq<Action>) {
    forall i :: 0 <= i < |rows| ==> rows[i] == RowOf(rows[i].partition, TallyOf(Within(actions, rows[i].partition)))
  }

  /** One row for each partition that has files, in the order of their names. */
  ghost predicate DescribesPartitions(rows: seq<PartitionRow>, actions: seq<Action>) {
    Ascending(Keys(rows), KeyLe) && ListsPartitions(Keys(rows), actions) && RowsTell(rows, actions)
  }

  lemma RowCountNeedsEveryFile(actions: seq<Action>, k: Key)
    ensures RowOf(k, TallyOf(Within(actions, k))).rows.Some?
            <==> forall a :: a in actions && a.partition == k ==> a.records.Some?
  {
    var ours := Within(actions, k);
    RowsAreComplete(ours);
    WeighOnes(ours);
    WithinElements(actions, k);
  }

  /** The table has a row count exactly if every partition has one. */
  lemma DescribedCompletely(rows: seq<PartitionRow>, actions: seq<Action>)
    requires DescribesPartitions(rows, actions)
    ensures |RowValues(actions)| == |actions| <==> forall i :: 0 <= i < |rows| ==> rows[i].rows.Some?
  {
    RowsAreComplete(actions);
    if |RowValues(actions)| == |actions| {
      forall i | 0 <= i < |rows| ensures rows[i].rows.Some? {
        RowCountNeedsEveryFile(actions, rows[i].partition);
      }
    } else {
      var a :| a in actions && a.records.None?;
      assert a.partition in Partitions(actions);
      assert a.partition in Keys(rows);
      var i :| 0 <= i < |rows| && Keys(rows)[i] == a.partition;
      RowCountNeedsEveryFile(actions, rows[i].partition);
      assert rows[i].rows.None?;
    }
  }

  lemma NoRepeatsByFirst(keys: seq<Key>)
    requires keys != []
    ensures NoRepeats(keys) <==> NoRepeats(keys[1..]) && keys[0] !in keys[1..]
  {
    var rest := keys[1..];
    assert keys == [keys[0]] + rest;
    assert multiset(keys) == multiset{keys[0]} + multiset(rest);
    assert keys[0] in rest <==> multiset(rest)[keys[0]] >= 1;
    if NoRepeats(rest) && keys[0] !in rest {
      forall k ensures multiset(keys)[k] <= 1 {
        assert multiset(rest)[k] <= 1;
      }
    } else if NoRepeats(keys) {
      assert multiset(keys)[keys[0]] <= 1;
      forall k ensures multiset(rest)[k] <= 1 {
        assert multiset(keys)[k] <= 1;
      }
    }
  }

  lemma {:induction false} DistinctDoNotRepeat(keys: seq<Key>)
    ensures (forall i, j :: 0 <= i < j < |keys| ==> keys[i] != keys[j]) <==> NoRepeats(keys)
    decreases |keys|
  {
    if keys == [] {
    } else {
      var rest := keys[1..];
      DistinctDoNotRepeat(rest);
      NoRepeatsByFirst(keys);
      if keys[0] in rest {
        var j :| 0 <= j < |rest| && rest[j] == keys[0];
        assert keys[j + 1] == keys[0];
      } else if NoRepeats(rest) {
        forall i, j | 0 <= i < j < |keys| ensures keys[i] != keys[j] {
          assert keys[j] == rest[j - 1];
        }
      } else {
        var i, j :| 0 <= i < j < |rest| && rest[i] == rest[j];
        assert keys[i + 1] == keys[j + 1];
      }
    }
  }

  /** The rows of such a description add up to the whole table. */
  lemma RowsConserve(rows: seq<PartitionRow>, actions: seq<Action>)
    requires DescribesPartitions(rows, actions)
    ensures TotalOf(rows, FilesColumn) == |actions|
    ensures TotalOf(rows, BytesColumn) == SumOf(SizesOf(actions))
    ensures |RowValues(actions)| == |actions| ==> TotalOf(rows, RowsColumn) == SumOf(RowValues(actions))
  {
    var keys := Keys(rows);
    forall a | a in actions ensures a.partition in keys {
      assert a.partition in Partitions(actions);
    }
    WeighOnes(actions);
    ColumnsConserve(rows, actions, FilesColumn, One);
    ColumnsConserve(rows, actions, BytesColumn, Bytes);
    if |RowValues(actions)| == |actions| {
      DescribedCompletely(rows, actions);
      ColumnsConserve(rows, actions, RowsColumn, Rows);
    }
  }

  lemma ColumnsConserve(
    rows: seq<PartitionRow>, actions: seq<Action>, column: PartitionRow -> int, weight: Action -> int)
    requires NoRepeats(Keys(rows)) && forall a :: a in actions ==> a.partition in Keys(rows)
    requires forall i :: 0 <= i < |rows| ==> column(rows[i]) == Weigh(Within(actions, rows[i].partition), weight)
    ensures TotalOf(rows, column) == Weigh(actions, weight)
  {
    ColumnsWeigh(rows, Keys(rows), actions, column, weight);
    PartitionsConserve(Keys(rows), actions, weight);
  }

  lemma KeysAreOrdered()
    ensures TotalPreorder(KeyLe)
  {
    forall a, b ensures KeyLe(a, b) || KeyLe(b, a) {
      LexTotal(a.text, b.text);
    }
    forall a, b, c | KeyLe(a, b) && KeyLe(b, c) ensures KeyLe(a, c) {
      LexTransitive(a.text, b.text, c.text);
    }
  }

  ghost predicate TableTells(keys: seq<Key>, table: map<Key, Tally>, actions: seq<Action>) {
    && (forall k :: k in keys <==> k in table)
    && forall k :: k in table ==> table[k] == TallyOf(Within(actions, k))
  }

  lemma {:induction false} NothingWithin(actions: seq<Action>, k: Key)
    requires k !in Partitions(actions)
    ensures Within(actions, k) == []
    decreases |actions|
  {
    if actions == [] {
    } else {
      assert actions == [actions[0]] + actions[1..];
      assert actions[0] in actions && actions[0].partition in Partitions(actions);
      assert Partitions(actions[1..]) <= Partitions(actions);
      NothingWithin(actions[1..], k);
    }
  }

  /** Listing a partition with its first file. */
  lemma ListingGrows(keys: seq<Key>, actions: seq<Action>, a: Action)
    requires ListsPartitions(keys, actions)
    ensures ListsPartitions(if a.partition in keys then keys else keys + [a.partition], actions + [a])
  {
    var keys' := if a.partition in keys then keys else keys + [a.partition];
    assert Partitions(actions + [a]) == Partitions(actions) + {a.partition} by {
      forall k | k in Partitions(actions) ensures k in Partitions(actions + [a]) {
        var b :| b in actions && b.partition == k;
        assert b in actions + [a];
      }
      assert a in actions + [a];
    }
    assert NoRepeats(keys') by {
      forall k ensures multiset(keys')[k] <= 1 {
        assert multiset(keys)[k] <= 1;
      }
    }
  }

  /** Counting a file in the tally of its partition. */
  lemma TableGrows(keys: seq<Key>, table: map<Key, Tally>, actions: seq<Action>, a: Action)
    requires ListsPartitions(keys, actions) && TableTells(keys, table, actions)
    ensures var t := if a.partition in table then table[a.partition] else Tally(0, 0, 0, 0);
            TableTells(if a.partition in keys then keys else keys + [a.partition], table[a.partition := Counted(t, a)],
                       actions + [a])
  {
    var t := if a.partition in table then table[a.partition] else Tally(0, 0, 0, 0);
    var table' := table[a.partition := Counted(t, a)];
    forall k | k in table' ensures table'[k] == TallyOf(Within(actions + [a], k)) {
      TallyGrows(actions, a, k);
      if k !in table {
        NothingWithin(actions, k);
      }
    }
  }

  method CountFile(keys: seq<Key>, table: map<Key, Tally>, a: Action, ghost actions: seq<Action>)
    returns (keys': seq<Key>, table': map<Key, Tally>)
    requires ListsPartitions(keys, actions) && TableTells(keys, table, actions)
    ensures ListsPartitions(keys', actions + [a]) && TableTells(keys', table', actions + [a])
  {
    var t := Tally(0, 0, 0, 0);
    keys' := keys;
    if a.partition in table {
      t := table[a.partition];
    } else {
      keys' := keys + [a.partition];
    }
    ghost var before := t;
    t := t.(files := t.files + 1, bytes := t.bytes + a.size);
    if a.records.Some? {
      t := t.(rows := t.rows + a.records.value, filesWithRows := t.filesWithRows + 1);
    }
    assert t == Counted(before, a);
    table' := table[a.partition := t];
    ListingGrows(keys, actions, a);
    TableGrows(keys, table, actions, a);
  }

  /** Tallies the files partition by partition, in the order of first appearance. */
  method Tallies(actions: seq<Action>) returns (keys: seq<Key>, table: map<Key, Tally>)
    ensures ListsPartitions(keys, actions) && TableTells(keys, table, actions)
  {
    keys, table := [], map[];
    for i := 0 to |actions|
      invariant ListsPartitions(keys, actions[..i]) && TableTells(keys, table, actions[..i])
    {
      keys, table := CountFile(keys, table, actions[i], actions[..i]);
      assert actions[..i + 1] == actions[..i] + [actions[i]];
    }
    assert actions[..|actions|] == actions;
  }

  lemma SortingKeepsListing(keys: seq<Key>, actions: seq<Action>)
    requires ListsPartitions(keys, actions)
    ensures var sorted := Sort(keys, KeyLe);
            Ascending(sorted, KeyLe) && ListsPartitions(sorted, actions) && forall k :: k in sorted <==> k in keys
  {
    KeysAreOrdered();
    SortAscends(keys, KeyLe);
    SameElements(Sort(keys, KeyLe), keys);
  }

  lemma TalliedRowsDescribe(sorted: seq<Key>, keys: seq<Key>, table: map<Key, Tally>, actions: seq<Action>,
                            rows: seq<PartitionRow>)
    requires Ascending(sorted, KeyLe) && ListsPartitions(sorted, actions) && forall k :: k in sorted ==> k in table
    requires TableTells(keys, table, actions)
    requires |rows| == |sorted| && forall j :: 0 <= j < |rows| ==> rows[j] == RowOf(sorted[j], table[sorted[j]])
    ensures DescribesPartitions(rows, actions)
  {
    assert Keys(rows) == sorted;
  }

  /** The rows of the tallied partitions, in the given order. */
  method PartitionRows(sorted: seq<Key>, table: map<Key, Tally>) returns (rows: seq<PartitionRow>)
    requires forall k :: k in sorted ==> k in table
    ensures |rows| == |sorted| && forall j :: 0 <= j < |rows| ==> rows[j] == RowOf(sorted[j], table[sorted[j]])
  {
    rows := [];
    for i := 0 to |sorted|
      invariant |rows| == i && forall j :: 0 <= j < i ==> rows[j] == RowOf(sorted[j], table[sorted[j]])
    {
      rows := rows + [RowOf(sorted[i], table[sorted[i]])];
    }
  }

  /** Totals, partition rows and size statistics of the active files. */
  method SummarizeLayout(actions: seq<Action>, threshold: int) returns (r: Summary)
    ensures DescribesPartitions(r.partitions, actions)
    ensures TotalOf(r.partitions, FilesColumn) == r.fileCount == |actions|
    ensures TotalOf(r.partitions, BytesColumn) == r.totalBytes == SumOf(SizesOf(actions))
    ensures r.rowCount.Some? <==> forall i :: 0 <= i < |r.partitions| ==> r.partitions[i].rows.Some?
    ensures r.rowCount.Some? ==> TotalOf(r.partitions, RowsColumn) == r.rowCount.value
    ensures actions != [] ==> r.sizes.minimum <= r.sizes.median <= r.sizes.p95 <= r.sizes.maximum
    ensures r.sizes == SizeStatistics(SizesOf(actions))
    ensures r.verySmall == CountAtMost(SizesOf(actions), threshold - 1)
  {
    var sizes, rowValues := SizesOf(actions), RowValues(actions);
    var keys, table := Tallies(actions);
    var sorted := Sort(keys, KeyLe);
    SortingKeepsListing(keys, actions);
    var rows := PartitionRows(sorted, table);
    TalliedRowsDescribe(sorted, keys, table, actions, rows);
    RowsConserve(rows, actions);
    DescribedCompletely(rows, actions);
    if actions != [] {
      SizesAreOrdered(sizes);
    }
    r := Summary(if |rowValues| == |actions| then Some(SumOf(rowValues)) else None,
                 SumOf(sizes), |sizes|, SizeStatistics(sizes), CountAtMost(sizes, threshold - 1), rows);
  }
}
