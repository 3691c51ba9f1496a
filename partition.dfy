/**
 * `get_partitioned_stats`: the files of a run grouped by the order of
 * magnitude of their duration, each with its lines grouped the same way.
 * Outer keys are powers of ten (`10**e`), inner keys are raw exponents.
 */
module Partition {
  import opened Decimal
  import opened Grouping
  import opened Profile

  /** The per-file record placed in a bucket: `{file_name, duration, details}`. */
  datatype FileSummary = FileSummary(fileName: string, duration: real, details: map<int, seq<LineProfile>>)

  function LineExponent(l: LineProfile): int
  {
    Exponent(l.duration)
  }

  function SummaryExponent(s: FileSummary): int
  {
    Exponent(s.duration)
  }

  /** A file's lines grouped under the exponent of their own duration. */
  function Details(f: FileProfile): map<int, seq<LineProfile>>
  {
    GroupBy(f.lines, LineExponent)
  }

  function Summarize(f: FileProfile): FileSummary
  {
    FileSummary(f.fileName, f.duration, Details(f))
  }

  function Summaries(files: seq<FileProfile>): (s: seq<FileSummary>)
    ensures |s| == |files|
    ensures forall i :: 0 <= i < |files| ==> s[i] == Summarize(files[i])
  {
    seq(|files|, i requires 0 <= i < |files| => Summarize(files[i]))
  }

  lemma Pow10InjectiveAll()
    ensures forall a: int, b: int :: Pow10(a) == Pow10(b) ==> a == b
  {
    forall a: int, b: int | Pow10(a) == Pow10(b) ensures a == b {
      Pow10Injective(a, b);
    }
  }

  /** Re-keys exponent buckets by the power of ten they stand for (`{10**k: v}`). */
  function PowerKeyed(b: map<int, seq<FileSummary>>): (r: map<real, seq<FileSummary>>)
    ensures forall e :: e in b ==> Pow10(e) in r && r[Pow10(e)] == b[e]
    ensures forall k :: k in r ==> exists e :: e in b && k == Pow10(e)
  {
    Pow10InjectiveAll();
    map e | e in b :: Pow10(e) := b[e]
  }

  /** What `get_partitioned_stats` returns for a run it does not fail on. */
  function Partitioned(run: ProfileRun): map<real, seq<FileSummary>>
  {
    PowerKeyed(GroupBy(Summaries(run.files), SummaryExponent))
  }

  /** The inner setdefault loop: one file's lines under the exponent of their duration. */
  method GroupLines(lines: seq<LineProfile>) returns (details: map<int, seq<LineProfile>>)
    ensures details == GroupBy(lines, LineExponent)
  {
    details := map[];
    var j := 0;
    while j < |lines|
      invariant 0 <= j <= |lines|
      invariant details == GroupBy(lines[..j], LineExponent)
    {
      var line := lines[j];
      GroupByPrefixStep(lines, LineExponent, j);
      details := AppendUnder(details, Exponent(line.duration), line);
      j := j + 1;
    }
    assert lines[..j] == lines;
  }

  /**
   * The nested setdefault loops. A file's share of the run is computed by
   * dividing by the run's duration, so a run with files and a zero total
   * fails on its first file.
   */
  method PartitionedStats(run: ProfileRun) returns (r: Result<map<real, seq<FileSummary>>>)
    ensures r.Err? <==> run.files != [] && run.duration == 0.0
    ensures r.Err? ==> r.error == ZeroRunDuration
    ensures r.Ok? ==> r.value == Partitioned(run)
  {
    var summaries := Summaries(run.files);
    var buckets: map<int, seq<FileSummary>> := map[];
    var i := 0;
    while i < |run.files|
      invariant 0 <= i <= |run.files|
      invariant i > 0 ==> run.duration != 0.0
      invariant buckets == GroupBy(summaries[..i], SummaryExponent)
    {
      var file := run.files[i];
      if run.duration == 0.0 {
        return Err(ZeroRunDuration);
      }
      var bucket := Exponent(file.duration);
      var details := GroupLines(file.lines);
      var summary := FileSummary(file.fileName, file.duration, details);
      assert summary == summaries[i];
      GroupByPrefixStep(summaries, SummaryExponent, i);
      buckets := AppendUnder(buckets, bucket, summary);
      i := i + 1;
    }
    assert summaries[..i] == summaries;
    r := Ok(PowerKeyed(buckets));
  }

  /**
   * Every file is in the bucket of its own decade, exactly as often as it
   * occurs in the run, and in no other bucket.
   */
  lemma PartitionPlacesEveryFile(run: ProfileRun, i: nat)
    requires i < |run.files|
    ensures Pow10(Exponent(run.files[i].duration)) in Partitioned(run)
    ensures multiset(Partitioned(run)[Pow10(Exponent(run.files[i].duration))])[Summarize(run.files[i])]
            == multiset(Summaries(run.files))[Summarize(run.files[i])]
    ensures forall k :: k in Partitioned(run) && k != Pow10(Exponent(run.files[i].duration)) ==>
            Summarize(run.files[i]) !in Partitioned(run)[k]
  {
    var s := Summaries(run.files);
    GroupByLossless(s, SummaryExponent);
    assert s[i] == Summarize(run.files[i]);
    var g := GroupBy(s, SummaryExponent);
    forall k | k in Partitioned(run) && k != Pow10(Exponent(run.files[i].duration))
      ensures Summarize(run.files[i]) !in Partitioned(run)[k]
    {
      var e :| e in g && k == Pow10(e);
      assert Partitioned(run)[k] == g[e];
    }
  }

  /** Every bucket is non-empty and holds only summaries of the run's files whose decade it is. */
  lemma PartitionHoldsOnlyRunFiles(run: ProfileRun)
    ensures forall k, s :: k in Partitioned(run) && s in Partitioned(run)[k] ==>
      k == Pow10(Exponent(s.duration)) && s in Summaries(run.files)
    ensures forall k :: k in Partitioned(run) ==> Partitioned(run)[k] != []
  {
    var s := Summaries(run.files);
    var g := GroupBy(s, SummaryExponent);
    GroupByLossless(s, SummaryExponent);
    forall k | k in Partitioned(run)
      ensures Partitioned(run)[k] != []
      ensures forall x :: x in Partitioned(run)[k] ==> k == Pow10(Exponent(x.duration)) && x in s
    {
      var e :| e in g && k == Pow10(e);
      assert Partitioned(run)[k] == g[e];
    }
  }

  /**
   * Within a file's summary every line is under its own exponent, exactly as
   * often as it occurs in the file, and under no other exponent.
   */
  lemma DetailsPlaceEveryLine(f: FileProfile, j: nat)
    requires j < |f.lines|
    ensures Exponent(f.lines[j].duration) in Details(f)
    ensures multiset(Details(f)[Exponent(f.lines[j].duration)])[f.lines[j]] == multiset(f.lines)[f.lines[j]]
    ensures forall e :: e in Details(f) && e != Exponent(f.lines[j].duration) ==> f.lines[j] !in Details(f)[e]
  {
    GroupByLossless(f.lines, LineExponent);
    assert LineExponent(f.lines[j]) == Exponent(f.lines[j].duration);
  }

  lemma ExampleDecades()
    ensures Exponent(12.3) == 1 && Exponent(0.045) == -2
    ensures Pow10(1) == 10.0 && Pow10(-2) == 0.01
  {
    assert Pow10(1) == 10.0 && Pow10(2) == 100.0;
    assert Pow10(-1) == 0.1 && Pow10(-2) == 0.01;
    ExponentUnique(12.3, 1);
    ExponentUnique(0.045, -2);
  }

  lemma ExampleGroups(sa: FileSummary, sb: FileSummary)
    requires SummaryExponent(sa) == 1 && SummaryExponent(sb) == -2
    ensures GroupBy([sa, sb], SummaryExponent) == map[1 := [sa], -2 := [sb]]
  {
    var s := [sa, sb];
    KeySetSnoc([], SummaryExponent, sa);
    KeySetSnoc([sa], SummaryExponent, sb);
    assert [] + [sa] == [sa] && [sa] + [sb] == s;
    assert KeySet([], SummaryExponent) == {};
    assert s[..1] == [sa] && [sa][..0] == [];
    assert Select(s, SummaryExponent, 1) == [sa];
    assert Select(s, SummaryExponent, -2) == [sb];
  }

  lemma ExampleKeys(x: seq<FileSummary>, y: seq<FileSummary>)
    ensures PowerKeyed(map[1 := x, -2 := y]) == map[10.0 := x, 0.01 := y]
  {
    ExampleDecades();
    var p := PowerKeyed(map[1 := x, -2 := y]);
    assert 10.0 in p && 0.01 in p;
    assert p.Keys == {10.0, 0.01};
  }

  /** Two files of 12.3 and 0.045 time units land in buckets 10 and 0.01. */
  lemma PartitionExample(a: FileProfile, b: FileProfile, total: real)
    requires a.duration == 12.3 && b.duration == 0.045
    ensures Partitioned(ProfileRun(total, [a, b])) == map[10.0 := [Summarize(a)], 0.01 := [Summarize(b)]]
  {
    ExampleDecades();
    var sa, sb := Summarize(a), Summarize(b);
    assert Summaries([a, b]) == [sa, sb];
    ExampleGroups(sa, sb);
    ExampleKeys([sa], [sb]);
  }
}
