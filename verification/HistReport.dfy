/** The histogram report cyclictest prints at the end: a table of buckets by threads, with an optional
    summary column. */
module HistReport {
  import opened ThreadStats

  function Sum(xs: seq<nat>): nat {
    if xs == [] then 0 else Sum(xs[..|xs| - 1]) + xs[|xs| - 1]
  }

  lemma SumNext(xs: seq<nat>, i: nat)
    requires i < |xs|
    ensures Sum(xs[..i + 1]) == Sum(xs[..i]) + xs[i]
  {
    assert xs[..i + 1][..i] == xs[..i];
  }

  lemma SumAppend(xs: seq<nat>, x: nat)
    ensures Sum(xs + [x]) == Sum(xs) + x
  {
    assert (xs + [x])[..|xs|] == xs;
  }

  // ------------------------------------------------------------------ sums over a table

  /** table[j][i] is what thread j counted in bucket i. */
  ghost predicate Rectangular(table: seq<seq<nat>>, buckets: nat) {
    forall j :: 0 <= j < |table| ==> |table[j]| == buckets
  }

  /** Bucket i over the first n threads: an entry of the summary column. */
  ghost function AcrossThreads(table: seq<seq<nat>>, buckets: nat, i: nat, n: nat): nat
    requires Rectangular(table, buckets) && i < buckets && n <= |table|
  {
    if n == 0 then 0 else AcrossThreads(table, buckets, i, n - 1) + table[n - 1][i]
  }

  /** The summary column, added up over the first `rows` buckets. */
  ghost function SummaryTotal(table: seq<seq<nat>>, buckets: nat, rows: nat, n: nat): nat
    requires Rectangular(table, buckets) && rows <= buckets && n <= |table|
  {
    if rows == 0 then 0
    else SummaryTotal(table, buckets, rows - 1, n) + AcrossThreads(table, buckets, rows - 1, n)
  }

  /** The totals of the threads, each over the first `rows` buckets, added up. */
  ghost function TotalOfThreads(table: seq<seq<nat>>, buckets: nat, rows: nat, n: nat): nat
    requires Rectangular(table, buckets) && rows <= buckets && n <= |table|
  {
    if n == 0 then 0 else TotalOfThreads(table, buckets, rows, n - 1) + Sum(table[n - 1][..rows])
  }

  lemma {:induction false} OneMoreRow(table: seq<seq<nat>>, buckets: nat, rows: nat, n: nat)
    requires Rectangular(table, buckets) && rows < buckets && n <= |table|
    ensures TotalOfThreads(table, buckets, rows + 1, n)
         == TotalOfThreads(table, buckets, rows, n) + AcrossThreads(table, buckets, rows, n)
  {
    if n > 0 {
      OneMoreRow(table, buckets, rows, n - 1);
      SumNext(table[n - 1], rows);
    }
  }

  lemma {:induction false} NoRows(table: seq<seq<nat>>, buckets: nat, n: nat)
    requires Rectangular(table, buckets) && n <= |table|
    ensures TotalOfThreads(table, buckets, 0, n) == 0
  {
    if n > 0 {
      NoRows(table, buckets, n - 1);
    }
  }

  /** The total of the summary column is the sum of the totals of the threads. */
  lemma {:induction false} ExchangeSums(table: seq<seq<nat>>, buckets: nat, rows: nat, n: nat)
    requires Rectangular(table, buckets) && rows <= buckets && n <= |table|
    ensures SummaryTotal(table, buckets, rows, n) == TotalOfThreads(table, buckets, rows, n)
  {
    if rows == 0 {
      NoRows(table, buckets, n);
    } else {
      ExchangeSums(table, buckets, rows - 1, n);
      OneMoreRow(table, buckets, rows - 1, n);
    }
  }

  // ------------------------------------------------------------------ the report

  ghost function Table(par: seq<ThreadStat>): (table: seq<seq<nat>>)
    reads set j | 0 <= j < |par| :: par[j].hist_array
    ensures |table| == |par| && forall j :: 0 <= j < |par| ==> table[j] == par[j].hist_array[..]
  {
    seq(|par|, j requires 0 <= j < |par| reads if 0 <= j < |par| then {par[j].hist_array} else {} =>
      par[j].hist_array[..])
  }

  /** The line of bucket i: the count of each thread, then, if asked for, their sum.  The totals are kept in
      logEntries, that of the summary column in its last element. */
  method PrintLine(par: seq<ThreadStat>, buckets: nat, i: nat, summary: bool, logEntries: array<nat>)
    returns (line: seq<nat>)
    requires logEntries.Length == |par| + 1 && i < buckets
    requires forall j :: 0 <= j < |par| ==> par[j].hist_array.Length == buckets && par[j].hist_array != logEntries
    modifies logEntries
    ensures var table := Table(par);
      && |line| == |par| + (if summary then 1 else 0)
      && (forall j :: 0 <= j < |par| ==> line[j] == table[j][i] && logEntries[j] == old(logEntries[j]) + table[j][i])
      && (summary ==> line[|par|] == AcrossThreads(table, buckets, i, |par|) == Sum(line[..|par|]))
    ensures logEntries[|par|] == old(logEntries[|par|]) + if summary then line[|par|] else 0
  {
    var allthreads := 0;
    line := [];
    ghost var table := Table(par);
    for j := 0 to |par|
      invariant |line| == j && Sum(line) == allthreads && forall k :: 0 <= k < j ==> line[k] == table[k][i]
      invariant forall k :: 0 <= k < j ==> logEntries[k] == old(logEntries[k]) + table[k][i]
      invariant forall k :: j <= k <= |par| ==> logEntries[k] == old(logEntries[k])
      invariant Table(par) == table && allthreads == AcrossThreads(table, buckets, i, j)
    {
      var latency := par[j].hist_array[i];
      SumAppend(line, latency);
      line := line + [latency];
      logEntries[j] := logEntries[j] + latency;
      allthreads := allthreads + latency;
    }
    if summary {
      assert (line + [allthreads])[..|par|] == line;
      line := line + [allthreads];
      logEntries[|par|] := logEntries[|par|] + allthreads;
    }
  }

  /** All lines of the table; the totals are left in logEntries. */
  method PrintLines(par: seq<ThreadStat>, buckets: nat, summary: bool, logEntries: array<nat>)
    returns (lines: seq<seq<nat>>)
    requires logEntries.Length == |par| + 1 && forall j :: 0 <= j <= |par| ==> logEntries[j] == 0
    requires forall j :: 0 <= j < |par| ==> par[j].hist_array.Length == buckets && par[j].hist_array != logEntries
    modifies logEntries
    ensures var table := Table(par);
      && |lines| == buckets && (forall i :: 0 <= i < buckets ==> LineOf(table, lines[i], i, summary))
      && (forall j :: 0 <= j < |par| ==> logEntries[j] == Sum(table[j][..buckets]))
      && (summary ==> logEntries[|par|] == SummaryTotal(table, buckets, buckets, |par|))
  {
    lines := [];
    ghost var table := Table(par);
    for i := 0 to buckets
      invariant Table(par) == table && |lines| == i
      invariant forall k :: 0 <= k < i ==> LineOf(table, lines[k], k, summary)
      invariant forall j :: 0 <= j < |par| ==> logEntries[j] == Sum(table[j][..i])
      invariant summary ==> logEntries[|par|] == SummaryTotal(table, buckets, i, |par|)
    {
      var line := PrintLine(par, buckets, i, summary, logEntries);
      assert LineOf(table, line, i, summary);
      lines := lines + [line];
      NextBucket(table, buckets, i);
    }
  }

  /** The table and the line of totals. */
  method PrintTable(par: seq<ThreadStat>, buckets: nat, summary: bool)
    returns (lines: seq<seq<nat>>, totals: seq<nat>)
    requires forall j :: 0 <= j < |par| ==> par[j].hist_array.Length == buckets
    ensures |lines| == buckets && forall i :: 0 <= i < buckets ==> LineOf(Table(par), lines[i], i, summary)
    ensures |totals| == |par| + if summary then 1 else 0
    ensures forall j :: 0 <= j < |par| ==> totals[j] == Sum(Table(par)[j])
    ensures summary ==> totals[|par|] == Sum(totals[..|par|]) == Sum(Column(lines, |par|))
  {
    var logEntries := new nat[|par| + 1](_ => 0);
    lines := PrintLines(par, buckets, summary, logEntries);
    totals := logEntries[..if summary then |par| + 1 else |par|];
    ghost var table := Table(par);
    forall j | 0 <= j < |par| ensures totals[j] == Sum(table[j]) {
      assert table[j][..buckets] == table[j];
    }
    if summary {
      SummaryIsTotal(table, buckets, totals[..|par|]);
      SummaryColumn(table, buckets, lines, buckets);
      assert Column(lines, |par|)[..buckets] == Column(lines, |par|);
    }
  }

  /** The counts of bucket i, thread by thread, and, if asked for, their sum. */
  ghost predicate LineOf(table: seq<seq<nat>>, line: seq<nat>, i: nat, summary: bool) {
    && |line| == |table| + (if summary then 1 else 0)
    && (forall j :: 0 <= j < |table| ==> i < |table[j]| && line[j] == table[j][i])
    && (summary ==> line[|table|] == Sum(line[..|table|]))
  }

  /** The j-th figures of all lines. */
  function Column(lines: seq<seq<nat>>, j: nat): seq<nat> {
    seq(|lines|, i requires 0 <= i < |lines| => if j < |lines[i]| then lines[i][j] else 0)
  }

  lemma {:induction false} LineSum(table: seq<seq<nat>>, buckets: nat, line: seq<nat>, i: nat, n: nat)
    requires Rectangular(table, buckets) && i < buckets && n <= |table| <= |line|
    requires forall j :: 0 <= j < |table| ==> line[j] == table[j][i]
    ensures Sum(line[..n]) == AcrossThreads(table, buckets, i, n)
  {
    if n > 0 {
      LineSum(table, buckets, line, i, n - 1);
      SumNext(line, n - 1);
    }
  }

  /** The last column of the table adds up to the total of the summary. */
  lemma {:induction false} SummaryColumn(table: seq<seq<nat>>, buckets: nat, lines: seq<seq<nat>>, n: nat)
    requires Rectangular(table, buckets) && n <= buckets == |lines|
    requires forall i :: 0 <= i < buckets ==> LineOf(table, lines[i], i, true)
    ensures Sum(Column(lines, |table|)[..n]) == SummaryTotal(table, buckets, n, |table|)
  {
    if n > 0 {
      SummaryColumn(table, buckets, lines, n - 1);
      SumNext(Column(lines, |table|), n - 1);
      assert LineOf(table, lines[n - 1], n - 1, true);
      LineSum(table, buckets, lines[n - 1], n - 1, |table|);
    }
  }

  lemma NextBucket(table: seq<seq<nat>>, buckets: nat, i: nat)
    requires Rectangular(table, buckets) && i < buckets
    ensures forall j :: 0 <= j < |table| ==> Sum(table[j][..i + 1]) == Sum(table[j][..i]) + table[j][i]
  {
    forall j | 0 <= j < |table| ensures Sum(table[j][..i + 1]) == Sum(table[j][..i]) + table[j][i] {
      SumNext(table[j], i);
    }
  }

  lemma SummaryIsTotal(table: seq<seq<nat>>, buckets: nat, totals: seq<nat>)
    requires Rectangular(table, buckets) && |table| == |totals|
    requires forall j :: 0 <= j < |table| ==> totals[j] == Sum(table[j])
    ensures SummaryTotal(table, buckets, buckets, |table|) == Sum(totals)
  {
    ExchangeSums(table, buckets, buckets, |table|);
    SumIsTotal(table, buckets, totals, |table|);
    assert totals[..|table|] == totals;
  }

  lemma {:induction false} SumIsTotal(table: seq<seq<nat>>, buckets: nat, columns: seq<nat>, n: nat)
    requires Rectangular(table, buckets) && n <= |table| == |columns|
    requires forall j :: 0 <= j < |table| ==> columns[j] == Sum(table[j])
    ensures Sum(columns[..n]) == TotalOfThreads(table, buckets, buckets, n)
  {
    if n > 0 {
      SumIsTotal(table, buckets, columns, n - 1);
      SumNext(columns, n - 1);
      assert table[n - 1][..buckets] == table[n - 1];
    }
  }

  // ------------------------------------------------------------------ totals, overflows and cycles

  lemma {:induction false} SumIsSumCounts(counts: seq<nat>, ds: seq<int>, n: nat)
    requires n <= |counts| && forall b :: 0 <= b < |counts| ==> counts[b] == Count(ds, b)
    ensures Sum(counts[..n]) == SumCounts(ds, n)
  {
    if n > 0 {
      SumIsSumCounts(counts, ds, n - 1);
      SumNext(counts, n - 1);
    }
  }

  /** Below the table, each thread's total and its overflows account for all its cycles. */
  lemma TotalAndOverflowsAreCycles(s: ThreadStat)
    requires s.Valid() && s.histogram > 0
    ensures Sum(s.hist_array[..]) + s.hist_overflow == s.cycles
  {
    SumIsSumCounts(s.hist_array[..], s.diffs, s.histogram);
    assert s.hist_array[..][..s.histogram] == s.hist_array[..];
    EveryCycleCounted(s.diffs, s.histogram);
  }

  /** The line of maxima and the overall maximum: printed and compared unsigned, so a thread that woke up early
      shows the largest value. */
  method PrintMaxima(par: seq<ThreadStat>) returns (maxima: seq<nat>, maxmax: nat)
    requires forall j :: 0 <= j < |par| ==> par[j].Valid()
    ensures |maxima| == |par| && forall j :: 0 <= j < |par| ==> maxima[j] == ToUnsigned(Greatest(par[j].diffs))
    ensures IsMaximum(maxmax, maxima)
  {
    maxima, maxmax := [], 0;
    for j := 0 to |par|
      invariant |maxima| == j && IsMaximum(maxmax, maxima)
      invariant forall k :: 0 <= k < j ==> maxima[k] == ToUnsigned(par[k].max)
    {
      maxima := maxima + [ToUnsigned(par[j].max)];
      if ToUnsigned(par[j].max) > maxmax {
        maxmax := ToUnsigned(par[j].max);
      }
    }
  }

  predicate IsMaximum(m: nat, xs: seq<nat>) {
    (forall j :: 0 <= j < |xs| ==> xs[j] <= m) && (m == 0 || m in xs)
  }

  lemma OverflowsRecorded(s: ThreadStat)
    requires s.Valid() && s.histogram > 0
    ensures s.hist_overflow == |Overflows(s.diffs, s.histogram)|
    ensures s.num_outliers == if s.hist_overflow < s.histogram then s.hist_overflow else s.histogram
    ensures s.outliers[..s.num_outliers] == Overflows(s.diffs, s.histogram)[..s.num_outliers]
  {}

  /** The line of overflows and their sum. */
  method PrintOverflows(par: seq<ThreadStat>, buckets: nat) returns (overflows: seq<nat>, allOverflows: nat)
    requires buckets > 0 && forall j :: 0 <= j < |par| ==> par[j].Valid() && par[j].histogram == buckets
    ensures |overflows| == |par| && allOverflows == Sum(overflows)
    ensures forall j :: 0 <= j < |par| ==> overflows[j] == |Overflows(par[j].diffs, buckets)|
  {
    overflows, allOverflows := [], 0;
    for j := 0 to |par|
      invariant |overflows| == j && allOverflows == Sum(overflows)
      invariant forall k :: 0 <= k < j ==> overflows[k] == |Overflows(par[k].diffs, buckets)|
    {
      OverflowsRecorded(par[j]);
      assert (overflows + [par[j].hist_overflow])[..j] == overflows;
      overflows := overflows + [par[j].hist_overflow];
      allOverflows := allOverflows + par[j].hist_overflow;
    }
  }

  /** The first overflowing cycles, as many as there are buckets, are listed; the rest is only counted. */
  ghost predicate ListsOverflows(s: ThreadStat, listed: seq<nat>, others: nat)
    reads s
  {
    var cs := Overflows(s.diffs, s.histogram);
    && listed == cs[..if |cs| < s.histogram then |cs| else s.histogram]
    && |listed| + others == |cs|
  }

  method PrintOutliers(s: ThreadStat) returns (listed: seq<nat>, others: nat)
    requires s.Valid() && s.histogram > 0
    ensures ListsOverflows(s, listed, others)
  {
    OverflowsRecorded(s);
    listed := [];
    for j := 0 to s.num_outliers
      invariant listed == s.outliers[..j]
    {
      listed := listed + [s.outliers[j]];
    }
    others := if s.num_outliers < s.hist_overflow then s.hist_overflow - s.num_outliers else 0;
  }

  method PrintAllOutliers(par: seq<ThreadStat>, buckets: nat) returns (listed: seq<seq<nat>>, others: seq<nat>)
    requires buckets > 0 && forall j :: 0 <= j < |par| ==> par[j].Valid() && par[j].histogram == buckets
    ensures |listed| == |others| == |par|
    ensures forall j :: 0 <= j < |par| ==> ListsOverflows(par[j], listed[j], others[j])
  {
    listed, others := [], [];
    for i := 0 to |par|
      invariant |listed| == |others| == i
      invariant forall j :: 0 <= j < i ==> ListsOverflows(par[j], listed[j], others[j])
    {
      var cycles, more := PrintOutliers(par[i]);
      listed, others := listed + [cycles], others + [more];
    }
  }

  /** The part of the report below the maxima. */
  method PrintBeyond(par: seq<ThreadStat>, buckets: nat)
    returns (overflows: seq<nat>, allOverflows: nat, listed: seq<seq<nat>>, others: seq<nat>)
    requires buckets > 0 && forall j :: 0 <= j < |par| ==> par[j].Valid() && par[j].histogram == buckets
    ensures |overflows| == |listed| == |others| == |par| && allOverflows == Sum(overflows)
    ensures forall j :: 0 <= j < |par| ==>
              overflows[j] == |Overflows(par[j].diffs, buckets)| && ListsOverflows(par[j], listed[j], others[j])
  {
    overflows, allOverflows := PrintOverflows(par, buckets);
    listed, others := PrintAllOutliers(par, buckets);
  }

  /** What print_hist prints of counts, totals, maxima and overflows. */
  datatype Report = Report(
    lines: seq<seq<nat>>, totals: seq<nat>, maxima: seq<nat>, maxmax: nat,
    overflows: seq<nat>, allOverflows: nat, listed: seq<seq<nat>>, others: seq<nat>)

  /** print_hist: each thread's column adds up, with its overflows, to its cycles, and with the summary column
      the last figures of both lines add up to the cycles of all threads. */
  method PrintHist(par: seq<ThreadStat>, buckets: nat, histofall: bool) returns (r: Report)
    requires buckets > 0 && forall j :: 0 <= j < |par| ==> par[j].Valid() && par[j].histogram == buckets
    ensures |r.lines| == buckets && forall i :: 0 <= i < buckets ==> |r.lines[i]| == |r.totals|
    ensures |r.totals| == |par| + if histofall && |par| > 1 then 1 else 0
    ensures |r.maxima| == |r.overflows| == |r.listed| == |r.others| == |par|
    ensures forall i, j :: 0 <= i < buckets && 0 <= j < |par| ==> r.lines[i][j] == Count(par[j].diffs, i)
    ensures forall j :: 0 <= j < |par| ==> r.totals[j] + r.overflows[j] == |par[j].diffs|
    ensures forall j :: 0 <= j < |par| ==> r.maxima[j] == ToUnsigned(Greatest(par[j].diffs))
    ensures IsMaximum(r.maxmax, r.maxima)
    ensures forall j :: 0 <= j < |par| ==> r.overflows[j] == |Overflows(par[j].diffs, buckets)|
    ensures forall j :: 0 <= j < |par| ==> ListsOverflows(par[j], r.listed[j], r.others[j])
    ensures histofall && |par| > 1 ==>
      && (forall i :: 0 <= i < buckets ==> r.lines[i][|par|] == AllCounts(par, i, |par|))
      && r.totals[|par|] == Sum(Column(r.lines, |par|)) == Sum(r.totals[..|par|])
      && r.totals[|par|] + r.allOverflows == AllCycles(par, |par|)
  {
    var lines, totals := PrintTable(par, buckets, histofall && |par| > 1);
    var maxima, maxmax := PrintMaxima(par);
    var overflows, allOverflows, listed, others := PrintBeyond(par, buckets);
    CountsAddUp(par, lines, totals, overflows, buckets, histofall && |par| > 1);
    r := Report(lines, totals, maxima, maxmax, overflows, allOverflows, listed, others);
  }

  lemma CountsAddUp(par: seq<ThreadStat>, lines: seq<seq<nat>>, totals: seq<nat>, overflows: seq<nat>,
                    buckets: nat, summary: bool)
    requires buckets > 0 && forall j :: 0 <= j < |par| ==> par[j].Valid() && par[j].histogram == buckets
    requires |lines| == buckets && forall i :: 0 <= i < buckets ==> LineOf(Table(par), lines[i], i, summary)
    requires |totals| == |par| + (if summary then 1 else 0) && |overflows| == |par|
    requires forall j :: 0 <= j < |par| ==> totals[j] == Sum(Table(par)[j])
    requires forall j :: 0 <= j < |par| ==> overflows[j] == |Overflows(par[j].diffs, buckets)|
    requires summary ==> totals[|par|] == Sum(totals[..|par|])
    ensures forall i :: 0 <= i < buckets ==> |lines[i]| == |totals|
    ensures forall i, j :: 0 <= i < buckets && 0 <= j < |par| ==> lines[i][j] == Count(par[j].diffs, i)
    ensures forall j :: 0 <= j < |par| ==> totals[j] + overflows[j] == |par[j].diffs|
    ensures summary ==> totals[|par|] + Sum(overflows) == AllCycles(par, |par|)
    ensures summary ==> forall i :: 0 <= i < buckets ==> lines[i][|par|] == AllCounts(par, i, |par|)
  {
    LinesAreCounts(par, lines, buckets, summary);
    if summary { SummaryEntries(par, lines, buckets); }
    TotalsAreCycles(par, totals, overflows, buckets);
    AddUp(par, totals, overflows, |par|);
    assert overflows[..|par|] == overflows;
  }

  lemma LinesAreCounts(par: seq<ThreadStat>, lines: seq<seq<nat>>, buckets: nat, summary: bool)
    requires buckets > 0 && forall j :: 0 <= j < |par| ==> par[j].Valid() && par[j].histogram == buckets
    requires |lines| == buckets && forall i :: 0 <= i < buckets ==> LineOf(Table(par), lines[i], i, summary)
    ensures forall i, j :: 0 <= i < buckets && 0 <= j < |par| ==>
              |lines[i]| > j && lines[i][j] == Count(par[j].diffs, i)
  {
    forall i, j | 0 <= i < buckets && 0 <= j < |par|
      ensures |lines[i]| > j && lines[i][j] == Count(par[j].diffs, i)
    {
      assert LineOf(Table(par), lines[i], i, summary);
      BucketIsCount(par[j], i);
    }
  }

  lemma SummaryEntries(par: seq<ThreadStat>, lines: seq<seq<nat>>, buckets: nat)
    requires |lines| == buckets && forall i :: 0 <= i < buckets ==> |lines[i]| == |par| + 1
    requires forall i :: 0 <= i < buckets ==> lines[i][|par|] == Sum(lines[i][..|par|])
    requires forall i, j :: 0 <= i < buckets && 0 <= j < |par| ==> lines[i][j] == Count(par[j].diffs, i)
    ensures forall i :: 0 <= i < buckets ==> lines[i][|par|] == AllCounts(par, i, |par|)
  {
    forall i | 0 <= i < buckets ensures lines[i][|par|] == AllCounts(par, i, |par|) {
      CountsSum(par, lines[i], i, |par|);
    }
  }

  lemma {:induction false} CountsSum(par: seq<ThreadStat>, line: seq<nat>, i: nat, n: nat)
    requires n <= |par| <= |line| && forall j :: 0 <= j < |par| ==> line[j] == Count(par[j].diffs, i)
    ensures Sum(line[..n]) == AllCounts(par, i, n)
  {
    if n > 0 {
      CountsSum(par, line, i, n - 1);
      SumNext(line, n - 1);
    }
  }

  lemma BucketIsCount(s: ThreadStat, i: nat)
    requires s.Valid() && i < s.histogram
    ensures s.hist_array[i] == Count(s.diffs, i)
  {}

  lemma TotalsAreCycles(par: seq<ThreadStat>, totals: seq<nat>, overflows: seq<nat>, buckets: nat)
    requires buckets > 0 && forall j :: 0 <= j < |par| ==> par[j].Valid() && par[j].histogram == buckets
    requires |par| <= |totals| && |par| == |overflows|
    requires forall j :: 0 <= j < |par| ==> totals[j] == Sum(par[j].hist_array[..])
    requires forall j :: 0 <= j < |par| ==> overflows[j] == |Overflows(par[j].diffs, buckets)|
    ensures forall j :: 0 <= j < |par| ==> totals[j] + overflows[j] == |par[j].diffs|
  {
    forall j | 0 <= j < |par| ensures totals[j] + overflows[j] == |par[j].diffs| {
      TotalAndOverflowsAreCycles(par[j]);
      OverflowsRecorded(par[j]);
    }
  }

  /** The cycles of the first n threads that fell into bucket b. */
  ghost function AllCounts(par: seq<ThreadStat>, b: nat, n: nat): nat
    requires n <= |par|
    reads par
  {
    if n == 0 then 0 else AllCounts(par, b, n - 1) + Count(par[n - 1].diffs, b)
  }

  ghost function AllCycles(par: seq<ThreadStat>, n: nat): nat
    requires n <= |par|
    reads par
  {
    if n == 0 then 0 else AllCycles(par, n - 1) + |par[n - 1].diffs|
  }

  lemma {:induction false} AddUp(par: seq<ThreadStat>, totals: seq<nat>, overflows: seq<nat>, n: nat)
    requires n <= |par| <= |totals| && |overflows| == |par|
    requires forall j :: 0 <= j < |par| ==> totals[j] + overflows[j] == |par[j].diffs|
    ensures Sum(totals[..n]) + Sum(overflows[..n]) == AllCycles(par, n)
  {
    if n > 0 {
      AddUp(par, totals, overflows, n - 1);
      SumNext(totals, n - 1);
      SumNext(overflows, n - 1);
    }
  }
}
