/**
 * The in-memory profile of one run, as the profiler holds it once it is
 * loaded, and the two plain queries on it: the instrumentation overhead and
 * the lookup of one file by ordinal or by name.
 *
 * The run is an immutable value: the profiler never changes it after
 * loading. The lookup of one file hands out a deep copy of it, so what
 * `get_dump` returns never aliases the run. The records that
 * `get_partitioned_stats` and `get_filtered_profile` return hold the run's
 * own line entries; that sharing is not part of this value model.
 */
module Profile {

  /** One measured source line (an entry of a file's `file_profile`). */
  datatype LineProfile = LineProfile(
    lineNo: nat,          // `line_no`
    line: string,         // the source text
    duration: real,
    hits: nat,
    blockId: seq<int>)    // `block_id`: the lexical block the line belongs to

  /** One source file (an entry of the run's `command_profile`). */
  datatype FileProfile = FileProfile(fileName: string, duration: real, lines: seq<LineProfile>)

  /** A whole run: its total wall time and its files, in the engine's order. */
  datatype ProfileRun = ProfileRun(duration: real, files: seq<FileProfile>)

  /** The exceptions the queries raise. */
  datatype Error =
    | ZeroRunDuration        // ZeroDivisionError when a file's share of a zero-length run is computed
    | UnknownFilterKind      // RuntimeError: a filter kind other than `file` or `line`
    | MalformedFilter(filter: string)  // ValueError: a filter string without ':'
    | NoSuchFile(path: string)         // RuntimeError "No such file"
    | IndexOutOfRange(index: int)      // IndexError on an integer descriptor

  datatype Result<+T> = Ok(value: T) | Err(error: Error)

  /**
   * An anchored regular-expression test, `re.match(pattern, text)`: does the
   * pattern match a prefix of the text, starting at position 0? The regular
   * expression engine itself is not part of this model.
   */
  type Matcher = (string, string) -> bool

  /** The files' durations added up, first to last (`sum(...)`). */
  function SumDurations(files: seq<FileProfile>): (total: real)
    ensures (forall i :: 0 <= i < |files| ==> files[i].duration >= 0.0) ==>
      forall i :: 0 <= i < |files| ==> files[i].duration <= total
  {
    if files == [] then 0.0 else files[0].duration + SumDurations(files[1..])
  }

  lemma {:induction false} SumDurationsAppend(a: seq<FileProfile>, b: seq<FileProfile>)
    ensures SumDurations(a + b) == SumDurations(a) + SumDurations(b)
  {
    if a != [] {
      assert (a + b)[1..] == a[1..] + b;
      SumDurationsAppend(a[1..], b);
    } else {
      assert a + b == b;
    }
  }

  /** With no negative file duration, the attributed time is never negative. */
  lemma {:induction false} SumDurationsNonNegative(files: seq<FileProfile>)
    requires forall i :: 0 <= i < |files| ==> files[i].duration >= 0.0
    ensures SumDurations(files) >= 0.0
  {
    if files != [] {
      SumDurationsNonNegative(files[1..]);
    }
  }

  /** Taking one file out of a list takes its duration out of the sum. */
  lemma RemoveOneSum(b: seq<FileProfile>, k: nat)
    requires k < |b|
    ensures SumDurations(b) == b[k].duration + SumDurations(b[..k] + b[k + 1..])
  {
    var p, q := b[..k], b[k + 1..];
    assert b == p + ([b[k]] + q);
    assert ([b[k]] + q)[1..] == q;
    SumDurationsAppend(p, [b[k]] + q);
    SumDurationsAppend(p, q);
  }

  /** Taking the same file out of two permutations of each other leaves two permutations of each other. */
  lemma RemoveOneMultiset(a: seq<FileProfile>, b: seq<FileProfile>, k: nat)
    requires multiset(a) == multiset(b)
    requires a != [] && k < |b| && b[k] == a[0]
    ensures multiset(a[1..]) == multiset(b[..k] + b[k + 1..])
  {
    assert b == b[..k] + [b[k]] + b[k + 1..];
    assert a == [a[0]] + a[1..];
    assert multiset(b[..k] + b[k + 1..]) == multiset(b) - multiset{b[k]};
    assert multiset(a[1..]) == multiset(a) - multiset{a[0]};
  }

  /** The sum does not depend on the order of the files. */
  lemma {:induction false} SumDurationsPermutation(a: seq<FileProfile>, b: seq<FileProfile>)
    requires multiset(a) == multiset(b)
    ensures SumDurations(a) == SumDurations(b)
    decreases |a|
  {
    if a != [] {
      assert a[0] in multiset(b);
      var k :| 0 <= k < |b| && b[k] == a[0];
      RemoveOneMultiset(a, b, k);
      RemoveOneSum(b, k);
      SumDurationsPermutation(a[1..], b[..k] + b[k + 1..]);
    }
  }

  datatype OverheadReport = OverheadReport(total: real, actual: real, overhead: real)

  /** Instrumentation overhead: the run's total against the time attributed to its files. */
  function Overhead(run: ProfileRun): (r: OverheadReport)
    ensures r.total == run.duration
    ensures r.actual == SumDurations(run.files)
    ensures r.actual + r.overhead == r.total
  {
    var actual := SumDurations(run.files);
    OverheadReport(run.duration, actual, run.duration - actual)
  }

  /** When no file's duration is negative, the overhead is at most the total. */
  lemma OverheadBounded(run: ProfileRun)
    requires forall i :: 0 <= i < |run.files| ==> run.files[i].duration >= 0.0
    ensures Overhead(run).overhead <= Overhead(run).total
    ensures Overhead(run).actual >= 0.0
  {
    SumDurationsNonNegative(run.files);
  }

  /** A file descriptor: an ordinal into the run's files or a file name. */
  datatype Descriptor = Index(i: int) | Path(name: string)

  /** The first position of a file called `name`, if there is one (`list.index`). */
  function IndexOfName(files: seq<FileProfile>, name: string): (r: int)
    ensures -1 <= r < |files|
    ensures r >= 0 ==> files[r].fileName == name
    ensures forall j :: 0 <= j < |files| && (r < 0 || j < r) ==> files[j].fileName != name
  {
    if files == [] then -1
    else if files[0].fileName == name then 0
    else
      var r := IndexOfName(files[1..], name);
      if r < 0 then -1 else r + 1
  }

  /**
   * Looks up one file. An integer descriptor is a Python list index: a
   * negative one counts from the end, one outside the list raises. A name
   * resolves to the first file with exactly that name. The index returned is
   * the descriptor's own value for an integer and the position for a name.
   */
  function ResolveFile(run: ProfileRun, desc: Descriptor): (r: Result<(int, FileProfile)>)
    ensures desc.Index? ==>
      (r.Ok? <==> -|run.files| <= desc.i < |run.files|)
    ensures desc.Index? && r.Ok? ==>
      r.value.0 == desc.i &&
      r.value.1 == run.files[if desc.i < 0 then desc.i + |run.files| else desc.i]
    ensures desc.Path? ==>
      (r.Ok? <==> exists i :: 0 <= i < |run.files| && run.files[i].fileName == desc.name)
    ensures desc.Path? && r.Ok? ==>
      0 <= r.value.0 < |run.files| &&
      r.value.1 == run.files[r.value.0] &&
      r.value.1.fileName == desc.name &&
      forall j :: 0 <= j < r.value.0 ==> run.files[j].fileName != desc.name
    ensures r.Err? ==> r.error == (if desc.Index? then IndexOutOfRange(desc.i) else NoSuchFile(desc.name))
  {
    match desc
    case Index(i) =>
      if -|run.files| <= i < |run.files| then
        Ok((i, run.files[if i < 0 then i + |run.files| else i]))
      else Err(IndexOutOfRange(i))
    case Path(name) =>
      var index := IndexOfName(run.files, name);
      if index < 0 then Err(NoSuchFile(name)) else Ok((index, run.files[index]))
  }

  /**
   * Resolving a position and resolving the name of the file there give the
   * same file and the same index, as long as no earlier file has that name
   * (always, when names are unique in the run).
   */
  lemma ResolveByIndexOrName(run: ProfileRun, i: nat)
    requires i < |run.files|
    requires forall j :: 0 <= j < i ==> run.files[j].fileName != run.files[i].fileName
    ensures ResolveFile(run, Index(i)) == ResolveFile(run, Path(run.files[i].fileName))
  {
  }
}
