/**
 * The query engine: `_get_stats_by_loc` flattens a run to one record per
 * `"file_name:line_no"` address, keeping the lines that pass an ordered list
 * of `(kind, pattern)` filters; `get_filtered_profile` parses the filters
 * from `"kind:pattern"` strings, keeps the records at or above a duration
 * threshold and sorts them by line duration, longest first.
 */
module Query {
  import opened Decimal
  import opened Profile

  /** A filter `(kind, pattern)`; the kinds understood are `file` and `line`. */
  datatype Filter = Filter(kind: string, pattern: string)

  /** Position of the first ':' in s, or |s| when there is none. */
  function FirstColon(s: string): (i: nat)
    ensures i <= |s|
    ensures forall j :: 0 <= j < i ==> s[j] != ':'
    ensures i < |s| ==> s[i] == ':'
  {
    if s == [] || s[0] == ':' then 0 else 1 + FirstColon(s[1..])
  }

  /** `ftype, fstr = f.split(':', 1)`: a string without ':' cannot be unpacked into two. */
  function ParseFilter(s: string): (r: Result<Filter>)
    ensures r.Err? <==> ':' !in s
    ensures r.Err? ==> r.error == MalformedFilter(s)
    ensures r.Ok? ==> s == r.value.kind + ":" + r.value.pattern && ':' !in r.value.kind
  {
    var i := FirstColon(s);
    if i == |s| then Err(MalformedFilter(s))
    else
      assert s == s[..i] + ":" + s[i + 1..];
      Ok(Filter(s[..i], s[i + 1..]))
  }

  /** Writing a filter as `kind:pattern` and parsing it back gives the filter, whenever its kind has no ':'. */
  lemma ParseFilterRoundTrip(f: Filter)
    requires ':' !in f.kind
    ensures ParseFilter(f.kind + ":" + f.pattern) == Ok(f)
  {
    var s := f.kind + ":" + f.pattern;
    var i := FirstColon(s);
    assert s[|f.kind|] == ':';
    assert forall j :: 0 <= j < |f.kind| ==> s[j] == f.kind[j];
    assert i == |f.kind|;
    assert s[..i] == f.kind && s[i + 1..] == f.pattern;
  }

  /** Parses every filter string in order; the first malformed one raises. */
  function ParseFilters(ss: seq<string>): Result<seq<Filter>>
  {
    if ss == [] then Ok([])
    else match ParseFilter(ss[0])
      case Err(e) => Err(e)
      case Ok(f) =>
        match ParseFilters(ss[1..])
        case Err(e) => Err(e)
        case Ok(fs) => Ok([f] + fs)
  }

  /** Parsing succeeds exactly when every string has a ':'. */
  lemma {:induction false} ParseFiltersOk(ss: seq<string>)
    ensures ParseFilters(ss).Ok? <==> forall i :: 0 <= i < |ss| ==> ':' in ss[i]
  {
    if ss != [] {
      var rest := ss[1..];
      ParseFiltersOk(rest);
      assert forall i :: 1 <= i < |ss| ==> rest[i - 1] == ss[i];
    }
  }

  /** A successful parse parses each string in order. */
  lemma {:induction false} ParseFiltersEach(ss: seq<string>)
    requires ParseFilters(ss).Ok?
    ensures |ParseFilters(ss).value| == |ss|
    ensures forall i :: 0 <= i < |ss| ==> ParseFilter(ss[i]) == Ok(ParseFilters(ss).value[i])
  {
    if ss != [] {
      var rest := ss[1..];
      ParseFiltersEach(rest);
      var v, w := ParseFilters(ss).value, ParseFilters(rest).value;
      assert v == [v[0]] + w;
      forall i | 1 <= i < |ss| ensures ParseFilter(ss[i]) == Ok(v[i]) {
        assert rest[i - 1] == ss[i] && w[i - 1] == v[i];
      }
    }
  }

  /** When parsing fails, the error names the first string without ':'. */
  lemma {:induction false} ParseFiltersFirstError(ss: seq<string>)
    requires ParseFilters(ss).Err?
    ensures exists i :: 0 <= i < |ss| && ':' !in ss[i] && ParseFilters(ss).error == MalformedFilter(ss[i]) &&
                        forall j :: 0 <= j < i ==> ':' in ss[j]
  {
    if ':' in ss[0] {
      var rest := ss[1..];
      ParseFiltersFirstError(rest);
      var i :| 0 <= i < |rest| && ':' !in rest[i] && ParseFilters(rest).error == MalformedFilter(rest[i]) &&
               forall j :: 0 <= j < i ==> ':' in rest[j];
      assert rest[i] == ss[i + 1];
      assert forall j :: 0 < j < i + 1 ==> rest[j - 1] == ss[j];
    }
  }

  /** One filter tried on one line: the pattern is matched against the file name or the line's text. */
  function FilterMatch(f: Filter, fileName: string, line: LineProfile, m: Matcher): (r: Result<bool>)
    ensures r.Err? <==> f.kind != "file" && f.kind != "line"
    ensures r.Err? ==> r.error == UnknownFilterKind
    ensures r.Ok? ==> (r.value <==> m(f.pattern, if f.kind == "file" then fileName else line.line))
  {
    if f.kind == "file" then Ok(m(f.pattern, fileName))
    else if f.kind == "line" then Ok(m(f.pattern, line.line))
    else Err(UnknownFilterKind)
  }

  /** The filter loop from a running `hit` flag: evaluate in order, stop at the first match. */
  function HitFrom(filters: seq<Filter>, fileName: string, line: LineProfile, m: Matcher, hit: bool): Result<bool>
  {
    if filters == [] then Ok(hit)
    else match FilterMatch(filters[0], fileName, line, m)
      case Err(e) => Err(e)
      case Ok(h) => if h then Ok(true) else HitFrom(filters[1..], fileName, line, m, false)
  }

  /** The hit test of one line: `hit` starts true and each filter evaluated overwrites it. */
  function IsHit(filters: seq<Filter>, fileName: string, line: LineProfile, m: Matcher): Result<bool>
  {
    HitFrom(filters, fileName, line, m, true)
  }

  /** Without error, the flag is true exactly when some filter matches, or when it started true and there are no filters. */
  lemma {:induction false} HitFromValue(filters: seq<Filter>, fileName: string, line: LineProfile, m: Matcher, hit: bool)
    ensures HitFrom(filters, fileName, line, m, hit).Ok? ==>
      (HitFrom(filters, fileName, line, m, hit).value <==>
        (filters == [] && hit) || exists i :: 0 <= i < |filters| && FilterMatch(filters[i], fileName, line, m) == Ok(true))
  {
    if filters != [] && FilterMatch(filters[0], fileName, line, m) == Ok(false) {
      var rest := filters[1..];
      HitFromValue(rest, fileName, line, m, false);
      if exists i :: 0 <= i < |filters| && FilterMatch(filters[i], fileName, line, m) == Ok(true) {
        var i :| 0 <= i < |filters| && FilterMatch(filters[i], fileName, line, m) == Ok(true);
        assert i > 0 && rest[i - 1] == filters[i];
      }
      if exists i :: 0 <= i < |rest| && FilterMatch(rest[i], fileName, line, m) == Ok(true) {
        var i :| 0 <= i < |rest| && FilterMatch(rest[i], fileName, line, m) == Ok(true);
        assert rest[i] == filters[i + 1];
      }
    }
  }

  /** A filter of unknown kind reached with no match before it makes the loop raise. */
  lemma {:induction false} HitFromReachesError(filters: seq<Filter>, fileName: string, line: LineProfile, m: Matcher, hit: bool, i: nat)
    requires i < |filters| && FilterMatch(filters[i], fileName, line, m).Err?
    requires forall j :: 0 <= j < i ==> FilterMatch(filters[j], fileName, line, m) == Ok(false)
    ensures HitFrom(filters, fileName, line, m, hit).Err?
  {
    if i > 0 {
      var rest := filters[1..];
      assert rest[i - 1] == filters[i];
      assert forall j :: 0 <= j < i - 1 ==> rest[j] == filters[j + 1];
      HitFromReachesError(rest, fileName, line, m, false, i - 1);
    }
  }

  /** When the loop raises, it is at a filter of unknown kind with no match before it. */
  lemma {:induction false} HitFromErrorCause(filters: seq<Filter>, fileName: string, line: LineProfile, m: Matcher, hit: bool)
    requires HitFrom(filters, fileName, line, m, hit).Err?
    ensures HitFrom(filters, fileName, line, m, hit).error == UnknownFilterKind
    ensures exists i :: 0 <= i < |filters| && FilterMatch(filters[i], fileName, line, m).Err? &&
                        forall j :: 0 <= j < i ==> FilterMatch(filters[j], fileName, line, m) == Ok(false)
  {
    if !FilterMatch(filters[0], fileName, line, m).Err? {
      var rest := filters[1..];
      HitFromErrorCause(rest, fileName, line, m, false);
      var i :| 0 <= i < |rest| && FilterMatch(rest[i], fileName, line, m).Err? &&
               forall j :: 0 <= j < i ==> FilterMatch(rest[j], fileName, line, m) == Ok(false);
      assert rest[i] == filters[i + 1];
      assert forall j :: 0 < j < i + 1 ==> rest[j - 1] == filters[j];
    }
  }

  /** The filter loop raises exactly when a filter of unknown kind is reached before any filter matches. */
  lemma HitFromError(filters: seq<Filter>, fileName: string, line: LineProfile, m: Matcher, hit: bool)
    ensures HitFrom(filters, fileName, line, m, hit).Err? <==>
      exists i :: 0 <= i < |filters| && FilterMatch(filters[i], fileName, line, m).Err? &&
                  forall j :: 0 <= j < i ==> FilterMatch(filters[j], fileName, line, m) == Ok(false)
    ensures HitFrom(filters, fileName, line, m, hit).Err? ==> HitFrom(filters, fileName, line, m, hit).error == UnknownFilterKind
  {
    if HitFrom(filters, fileName, line, m, hit).Err? {
      HitFromErrorCause(filters, fileName, line, m, hit);
    }
    if exists i :: 0 <= i < |filters| && FilterMatch(filters[i], fileName, line, m).Err? &&
                   forall j :: 0 <= j < i ==> FilterMatch(filters[j], fileName, line, m) == Ok(false) {
      var i :| 0 <= i < |filters| && FilterMatch(filters[i], fileName, line, m).Err? &&
               forall j :: 0 <= j < i ==> FilterMatch(filters[j], fileName, line, m) == Ok(false);
      HitFromReachesError(filters, fileName, line, m, hit, i);
    }
  }

  /**
   * With no filters every line is a hit. Otherwise the test raises exactly
   * when a filter of unknown kind is reached before any filter matches, and
   * when it does not raise, a line is a hit exactly when some filter matches.
   */
  lemma HitMeaning(filters: seq<Filter>, fileName: string, line: LineProfile, m: Matcher)
    ensures filters == [] ==> IsHit(filters, fileName, line, m) == Ok(true)
    ensures IsHit(filters, fileName, line, m).Ok? ==>
      (IsHit(filters, fileName, line, m).value <==>
        filters == [] || exists i :: 0 <= i < |filters| && FilterMatch(filters[i], fileName, line, m) == Ok(true))
    ensures IsHit(filters, fileName, line, m).Err? <==>
      exists i :: 0 <= i < |filters| && FilterMatch(filters[i], fileName, line, m).Err? &&
                  forall j :: 0 <= j < i ==> FilterMatch(filters[j], fileName, line, m) == Ok(false)
  {
    HitFromValue(filters, fileName, line, m, true);
    HitFromError(filters, fileName, line, m, true);
  }

  /** What `_get_stats_by_loc` stores for a line: the CONTAINING FILE's duration, its name, and the line. */
  datatype Datum = Datum(duration: real, fileName: string, line: LineProfile)

  /** The records of one file's lines, in order. */
  function FileData(f: FileProfile): (ds: seq<Datum>)
    ensures |ds| == |f.lines|
    ensures forall j :: 0 <= j < |ds| ==> ds[j] == Datum(f.duration, f.fileName, f.lines[j])
  {
    seq(|f.lines|, j requires 0 <= j < |f.lines| => Datum(f.duration, f.fileName, f.lines[j]))
  }

  /** The records of every line of the run, file after file, in the order the loops visit them. */
  function Entries(files: seq<FileProfile>): seq<Datum>
  {
    if files == [] then [] else Entries(files[..|files| - 1]) + FileData(files[|files| - 1])
  }

  /** The records are exactly the lines of the run, each paired with its own file's name and duration. */
  lemma {:induction false} EntriesAreLines(files: seq<FileProfile>)
    ensures forall i, j :: 0 <= i < |files| && 0 <= j < |files[i].lines| ==>
      Datum(files[i].duration, files[i].fileName, files[i].lines[j]) in Entries(files)
    ensures forall d :: d in Entries(files) ==>
      exists i :: 0 <= i < |files| && d.fileName == files[i].fileName && d.duration == files[i].duration && d.line in files[i].lines
  {
    if files != [] {
      var init := files[..|files| - 1];
      var last := files[|files| - 1];
      EntriesAreLines(init);
      forall i, j | 0 <= i < |files| && 0 <= j < |files[i].lines|
        ensures Datum(files[i].duration, files[i].fileName, files[i].lines[j]) in Entries(files)
      {
        if i < |files| - 1 {
          assert files[i] == init[i];
        } else {
          assert FileData(last)[j] == Datum(files[i].duration, files[i].fileName, files[i].lines[j]);
        }
      }
      forall d | d in Entries(files)
        ensures exists i :: 0 <= i < |files| && d.fileName == files[i].fileName && d.duration == files[i].duration && d.line in files[i].lines
      {
        if d in Entries(init) {
          var i :| 0 <= i < |init| && d.fileName == init[i].fileName && d.duration == init[i].duration && d.line in init[i].lines;
          assert files[i] == init[i];
        } else {
          assert d in FileData(last);
          var j :| 0 <= j < |last.lines| && FileData(last)[j] == d;
          assert d.line in files[|files| - 1].lines;
        }
      }
    }
  }

  /** The address of a line: `'%s:%s' % (file_name, line_no)`. */
  function Address(fileName: string, lineNo: nat): string
  {
    fileName + ":" + NatToString(lineNo)
  }

  function AddressOf(d: Datum): string
  {
    Address(d.fileName, d.line.lineNo)
  }

  /** Two lines share an address only when they have the same file name and the same line number. */
  lemma AddressInjective(f1: string, n1: nat, f2: string, n2: nat)
    requires Address(f1, n1) == Address(f2, n2)
    ensures f1 == f2 && n1 == n2
  {
    DigitsHaveNoColon(NatToString(n1));
    DigitsHaveNoColon(NatToString(n2));
    ColonSplitUnique(f1, NatToString(n1), f2, NatToString(n2));
    NatToStringInjective(n1, n2);
  }

  /** The flat dict after the records ds are visited in order; the first failing hit test raises. */
  function Collect(ds: seq<Datum>, filters: seq<Filter>, m: Matcher): Result<map<string, Datum>>
  {
    if ds == [] then Ok(map[])
    else match Collect(ds[..|ds| - 1], filters, m)
      case Err(e) => Err(e)
      case Ok(flat) =>
        var d := ds[|ds| - 1];
        match IsHit(filters, d.fileName, d.line, m)
        case Err(e) => Err(e)
        case Ok(hit) => Ok(if hit then flat[AddressOf(d) := d] else flat)
  }

  predicate Hits(d: Datum, filters: seq<Filter>, m: Matcher)
  {
    IsHit(filters, d.fileName, d.line, m) == Ok(true)
  }

  /** Once a hit test has raised, later records change nothing. */
  lemma {:induction false} CollectErrSticky(ds: seq<Datum>, more: seq<Datum>, filters: seq<Filter>, m: Matcher)
    requires Collect(ds, filters, m).Err?
    ensures Collect(ds + more, filters, m) == Collect(ds, filters, m)
    decreases |more|
  {
    if more == [] {
      assert ds + more == ds;
    } else {
      var init := more[..|more| - 1];
      CollectErrSticky(ds, init, filters, m);
      assert (ds + more)[..|ds + more| - 1] == ds + init;
    }
  }

  /** The flattening raises exactly when the hit test of some record raises. */
  lemma {:induction false} CollectFails(ds: seq<Datum>, filters: seq<Filter>, m: Matcher)
    ensures Collect(ds, filters, m).Err? <==> exists i :: 0 <= i < |ds| && IsHit(filters, ds[i].fileName, ds[i].line, m).Err?
    ensures Collect(ds, filters, m).Err? ==> Collect(ds, filters, m).error == UnknownFilterKind
  {
    if ds != [] {
      var init := ds[..|ds| - 1];
      var d := ds[|ds| - 1];
      CollectFails(init, filters, m);
      assert forall i :: 0 <= i < |init| ==> init[i] == ds[i];
      HitFromError(filters, d.fileName, d.line, m, true);
    }
  }

  /** When the flattening succeeds, its addresses are exactly those of the records that are hits. */
  lemma {:induction false} CollectKeys(ds: seq<Datum>, filters: seq<Filter>, m: Matcher)
    requires Collect(ds, filters, m).Ok?
    ensures forall k :: k in Collect(ds, filters, m).value <==>
      exists i :: 0 <= i < |ds| && Hits(ds[i], filters, m) && AddressOf(ds[i]) == k
  {
    if ds != [] {
      var init := ds[..|ds| - 1];
      var d := ds[|ds| - 1];
      CollectKeys(init, filters, m);
      var flat := Collect(ds, filters, m).value;
      var before := Collect(init, filters, m).value;
      forall k ensures k in flat <==> exists i :: 0 <= i < |ds| && Hits(ds[i], filters, m) && AddressOf(ds[i]) == k {
        if k in flat && !(Hits(d, filters, m) && AddressOf(d) == k) {
          assert k in before;
          var i :| 0 <= i < |init| && Hits(init[i], filters, m) && AddressOf(init[i]) == k;
          assert init[i] == ds[i];
        }
        if exists i :: 0 <= i < |ds| && Hits(ds[i], filters, m) && AddressOf(ds[i]) == k {
          var i :| 0 <= i < |ds| && Hits(ds[i], filters, m) && AddressOf(ds[i]) == k;
          if i < |ds| - 1 {
            assert init[i] == ds[i];
            assert k in before;
          }
        }
      }
    }
  }

  /**
   * When the flattening succeeds, an address holds the LAST hit record with
   * that address: a later line overwrites an earlier one.
   */
  lemma {:induction false} CollectLastWins(ds: seq<Datum>, filters: seq<Filter>, m: Matcher, i: nat)
    requires Collect(ds, filters, m).Ok?
    requires i < |ds| && Hits(ds[i], filters, m)
    requires forall j :: i < j < |ds| && AddressOf(ds[j]) == AddressOf(ds[i]) ==> !Hits(ds[j], filters, m)
    ensures AddressOf(ds[i]) in Collect(ds, filters, m).value
    ensures Collect(ds, filters, m).value[AddressOf(ds[i])] == ds[i]
  {
    var init := ds[..|ds| - 1];
    if i < |ds| - 1 {
      assert init[i] == ds[i];
      assert forall j :: i < j < |init| ==> init[j] == ds[j];
      CollectLastWins(init, filters, m, i);
    }
  }

  /** When the flattening succeeds, each address holds a hit record of its own address. */
  lemma {:induction false} CollectValues(ds: seq<Datum>, filters: seq<Filter>, m: Matcher)
    requires Collect(ds, filters, m).Ok?
    ensures forall k :: k in Collect(ds, filters, m).value ==>
      var d := Collect(ds, filters, m).value[k];
      d in ds && AddressOf(d) == k && Hits(d, filters, m)
  {
    if ds != [] {
      var init := ds[..|ds| - 1];
      CollectValues(init, filters, m);
      assert forall d :: d in init ==> d in ds;
    }
  }

  /** The hit-test loop over the filters, with its running flag and early exit. */
  method EvaluateFilters(filters: seq<Filter>, fileName: string, line: LineProfile, m: Matcher) returns (r: Result<bool>)
    ensures r == IsHit(filters, fileName, line, m)
  {
    var hit := true;
    var k := 0;
    while k < |filters|
      invariant 0 <= k <= |filters|
      invariant HitFrom(filters[k..], fileName, line, m, hit) == IsHit(filters, fileName, line, m)
    {
      var f := filters[k];
      assert filters[k..][0] == f && filters[k..][1..] == filters[k + 1..];
      if f.kind == "file" {
        hit := m(f.pattern, fileName);
      } else if f.kind == "line" {
        hit := m(f.pattern, line.line);
      } else {
        return Err(UnknownFilterKind);
      }
      if hit {
        return Ok(true);
      }
      k := k + 1;
    }
    return Ok(hit);
  }

  /** The inner loops of `_get_stats_by_loc` for one file: each line's hit test, then the flat dict update. */
  method CollectFileLines(ghost done: seq<Datum>, flat0: map<string, Datum>, file: FileProfile, filters: seq<Filter>, m: Matcher)
    returns (r: Result<map<string, Datum>>)
    requires Collect(done, filters, m) == Ok(flat0)
    ensures r == Collect(done + FileData(file), filters, m)
  {
    var flat := flat0;
    var j := 0;
    assert done + FileData(file)[..0] == done;
    while j < |file.lines|
      invariant 0 <= j <= |file.lines|
      invariant Collect(done + FileData(file)[..j], filters, m) == Ok(flat)
    {
      var line := file.lines[j];
      ghost var visited := done + FileData(file)[..j + 1];
      assert visited[..|visited| - 1] == done + FileData(file)[..j];
      assert visited[|visited| - 1] == Datum(file.duration, file.fileName, line);
      var hit := EvaluateFilters(filters, file.fileName, line, m);
      if hit.Err? {
        CollectErrSticky(visited, FileData(file)[j + 1..], filters, m);
        assert visited + FileData(file)[j + 1..] == done + FileData(file);
        return Err(hit.error);
      }
      if hit.value {
        flat := flat[Address(file.fileName, line.lineNo) := Datum(file.duration, file.fileName, line)];
      }
      j := j + 1;
    }
    assert FileData(file)[..j] == FileData(file);
    r := Ok(flat);
  }

  /** `_get_stats_by_loc`: every file, every line, the filters, then the flat dict update. */
  method StatsByLoc(run: ProfileRun, filters: seq<Filter>, m: Matcher) returns (r: Result<map<string, Datum>>)
    ensures r == Collect(Entries(run.files), filters, m)
  {
    var flat: map<string, Datum> := map[];
    var i := 0;
    while i < |run.files|
      invariant 0 <= i <= |run.files|
      invariant Collect(Entries(run.files[..i]), filters, m) == Ok(flat)
    {
      var file := run.files[i];
      assert run.files[..i + 1][..i] == run.files[..i];
      assert Entries(run.files[..i + 1]) == Entries(run.files[..i]) + FileData(file);
      var next := CollectFileLines(Entries(run.files[..i]), flat, file, filters, m);
      if next.Err? {
        EntriesPrefix(run.files, i + 1);
        CollectErrSticky(Entries(run.files[..i + 1]), Entries(run.files)[|Entries(run.files[..i + 1])|..], filters, m);
        return next;
      }
      flat := next.value;
      i := i + 1;
    }
    assert run.files[..i] == run.files;
    r := Ok(flat);
  }

  /** The records of a prefix of the files are a prefix of the records. */
  lemma {:induction false} EntriesPrefix(files: seq<FileProfile>, n: nat)
    requires n <= |files|
    ensures |Entries(files[..n])| <= |Entries(files)|
    ensures Entries(files) == Entries(files[..n]) + Entries(files)[|Entries(files[..n])|..]
    decreases |files|
  {
    if n < |files| {
      var init := files[..|files| - 1];
      assert init[..n] == files[..n];
      EntriesPrefix(init, n);
    } else {
      assert files[..n] == files;
    }
  }

  /** One row of `get_filtered_profile`: `{'address': ..., 'datum': ...}`. */
  datatype Row = Row(address: string, datum: Datum)

  function RowDuration(row: Row): real
  {
    row.datum.line.duration
  }

  predicate SortedByDuration(rows: seq<Row>)
  {
    forall i, j :: 0 <= i < j < |rows| ==> RowDuration(rows[i]) >= RowDuration(rows[j])
  }

  /** Inserts a row before the first row it is not shorter than. */
  function InsertByDuration(x: Row, rows: seq<Row>): (r: seq<Row>)
    ensures multiset(r) == multiset(rows) + multiset{x}
  {
    if rows == [] || RowDuration(x) >= RowDuration(rows[0]) then [x] + rows
    else
      assert rows == [rows[0]] + rows[1..];
      [rows[0]] + InsertByDuration(x, rows[1..])
  }

  /** Inserting into rows sorted longest first keeps them sorted, and the new first row is x or the old first row. */
  lemma {:induction false} InsertKeepsSorted(x: Row, rows: seq<Row>)
    requires SortedByDuration(rows)
    ensures |InsertByDuration(x, rows)| == |rows| + 1
    ensures InsertByDuration(x, rows)[0] == x || (rows != [] && InsertByDuration(x, rows)[0] == rows[0])
    ensures SortedByDuration(InsertByDuration(x, rows))
  {
    if !(rows == [] || RowDuration(x) >= RowDuration(rows[0])) {
      var rest := InsertByDuration(x, rows[1..]);
      InsertKeepsSorted(x, rows[1..]);
      assert RowDuration(rows[0]) >= RowDuration(rest[0]);
      assert forall k :: 0 <= k < |rest| ==> RowDuration(rows[0]) >= RowDuration(rest[k]);
      assert InsertByDuration(x, rows) == [rows[0]] + rest;
    }
  }

  /** `sorted(rows, key=line duration, reverse=True)`: non-increasing durations, same rows. */
  function SortByDuration(rows: seq<Row>): (r: seq<Row>)
    ensures SortedByDuration(r)
    ensures multiset(r) == multiset(rows)
  {
    if rows == [] then []
    else
      assert rows == [rows[0]] + rows[1..];
      InsertKeepsSorted(rows[0], SortByDuration(rows[1..]));
      InsertByDuration(rows[0], SortByDuration(rows[1..]))
  }

  /** Sorting keeps exactly the rows it is given, each as often. */
  lemma SortKeepsRows(rows: seq<Row>)
    ensures forall row :: row in SortByDuration(rows) <==> row in rows
    ensures forall row :: multiset(SortByDuration(rows))[row] == multiset(rows)[row]
  {
    var sorted := SortByDuration(rows);
    forall row ensures row in sorted <==> row in rows {
      assert row in sorted <==> row in multiset(sorted);
      assert row in rows <==> row in multiset(rows);
    }
  }

  /**
   * `get_filtered_profile`: the flat records at or above threshold t, one
   * row per address, longest line first. Ties come out in the order the flat
   * dict yields its items, which Python leaves unspecified; the model leaves
   * it unspecified too.
   */
  method FilteredProfile(run: ProfileRun, t: real, filterStrings: seq<string>, m: Matcher) returns (r: Result<seq<Row>>)
    ensures ParseFilters(filterStrings).Err? ==> r == Err(ParseFilters(filterStrings).error)
    ensures ParseFilters(filterStrings).Ok? && Collect(Entries(run.files), ParseFilters(filterStrings).value, m).Err? ==>
      r == Err(UnknownFilterKind)
    ensures ParseFilters(filterStrings).Ok? && Collect(Entries(run.files), ParseFilters(filterStrings).value, m).Ok? ==>
      r.Ok?
    ensures r.Ok? ==>
      ParseFilters(filterStrings).Ok? &&
      var flat := Collect(Entries(run.files), ParseFilters(filterStrings).value, m);
      && flat.Ok?
      && (forall row :: row in r.value ==>
            row.address in flat.value && row.datum == flat.value[row.address] && RowDuration(row) >= t)
      && (forall k :: k in flat.value && flat.value[k].line.duration >= t ==> Row(k, flat.value[k]) in r.value)
      && (forall row :: multiset(r.value)[row] <= 1)
      && SortedByDuration(r.value)
  {
    var parsed := ParseFilters(filterStrings);
    if parsed.Err? {
      return Err(parsed.error);
    }
    var stats := StatsByLoc(run, parsed.value, m);
    if stats.Err? {
      CollectFails(Entries(run.files), parsed.value, m);
      return Err(stats.error);
    }
    var flat := stats.value;
    var rows: seq<Row> := [];
    var rest := flat.Keys;
    while rest != {}
      invariant rest <= flat.Keys
      invariant forall row :: row in rows ==>
        row.address in flat && row.address !in rest && row.datum == flat[row.address] && RowDuration(row) >= t
      invariant forall k :: k in flat && k !in rest && flat[k].line.duration >= t ==> Row(k, flat[k]) in rows
      invariant forall row :: multiset(rows)[row] <= 1
      decreases rest
    {
      var k :| k in rest;
      if flat[k].line.duration >= t {
        rows := rows + [Row(k, flat[k])];
      }
      rest := rest - {k};
    }
    var sorted := SortByDuration(rows);
    SortKeepsRows(rows);
    r := Ok(sorted);
  }

  /** With no filters the flattening cannot fail and every record is a hit. */
  lemma {:induction false} NoFiltersAllHit(ds: seq<Datum>, m: Matcher)
    ensures Collect(ds, [], m).Ok?
    ensures forall i :: 0 <= i < |ds| ==> Hits(ds[i], [], m)
  {
    forall d: Datum ensures IsHit([], d.fileName, d.line, m) == Ok(true) {
      HitMeaning([], d.fileName, d.line, m);
    }
    CollectFails(ds, [], m);
  }

  /** With no filters, the addresses in the flat dict are exactly the addresses of the run's lines. */
  lemma NoFiltersKeepEveryAddress(run: ProfileRun, m: Matcher)
    ensures Collect(Entries(run.files), [], m).Ok?
    ensures forall i, j :: 0 <= i < |run.files| && 0 <= j < |run.files[i].lines| ==>
      Address(run.files[i].fileName, run.files[i].lines[j].lineNo) in Collect(Entries(run.files), [], m).value
    ensures forall k :: k in Collect(Entries(run.files), [], m).value ==>
      exists i, j :: 0 <= i < |run.files| && 0 <= j < |run.files[i].lines| &&
                     k == Address(run.files[i].fileName, run.files[i].lines[j].lineNo)
  {
    var ds := Entries(run.files);
    NoFiltersAllHit(ds, m);
    CollectKeys(ds, [], m);
    EntriesAreLines(run.files);
    var flat := Collect(ds, [], m).value;
    forall i, j | 0 <= i < |run.files| && 0 <= j < |run.files[i].lines|
      ensures Address(run.files[i].fileName, run.files[i].lines[j].lineNo) in flat
    {
      var d := Datum(run.files[i].duration, run.files[i].fileName, run.files[i].lines[j]);
      var n :| 0 <= n < |ds| && ds[n] == d;
      assert Hits(ds[n], [], m) && AddressOf(ds[n]) == AddressOf(d);
    }
    forall k | k in flat
      ensures exists i, j :: 0 <= i < |run.files| && 0 <= j < |run.files[i].lines| &&
                             k == Address(run.files[i].fileName, run.files[i].lines[j].lineNo)
    {
      var n :| 0 <= n < |ds| && Hits(ds[n], [], m) && AddressOf(ds[n]) == k;
      assert ds[n] in ds;
      var i :| 0 <= i < |run.files| && ds[n].fileName == run.files[i].fileName && ds[n].line in run.files[i].lines;
      var j :| 0 <= j < |run.files[i].lines| && run.files[i].lines[j] == ds[n].line;
      assert k == Address(run.files[i].fileName, run.files[i].lines[j].lineNo);
    }
  }

  /**
   * `get_filtered_profile(t)` with no filters: it cannot fail, every row is
   * the address of a line of the run, and when every line reaches t (as
   * every line does for t == 0 when durations are not negative) every line's
   * address has a row.
   */
  method UnfilteredProfile(run: ProfileRun, t: real, m: Matcher) returns (r: Result<seq<Row>>)
    ensures r.Ok?
    ensures forall row :: row in r.value ==>
      exists i, j :: 0 <= i < |run.files| && 0 <= j < |run.files[i].lines| &&
                     row.address == Address(run.files[i].fileName, run.files[i].lines[j].lineNo)
    ensures (forall i, j :: 0 <= i < |run.files| && 0 <= j < |run.files[i].lines| ==> run.files[i].lines[j].duration >= t) ==>
      forall i, j :: 0 <= i < |run.files| && 0 <= j < |run.files[i].lines| ==>
        exists row :: row in r.value && row.address == Address(run.files[i].fileName, run.files[i].lines[j].lineNo)
  {
    var ds := Entries(run.files);
    NoFiltersKeepEveryAddress(run, m);
    assert ParseFilters([]) == Ok([]);
    r := FilteredProfile(run, t, [], m);
    var flat := Collect(ds, [], m).value;
    if forall i, j :: 0 <= i < |run.files| && 0 <= j < |run.files[i].lines| ==> run.files[i].lines[j].duration >= t {
      CollectValues(ds, [], m);
      EntriesAreLines(run.files);
      forall i, j | 0 <= i < |run.files| && 0 <= j < |run.files[i].lines|
        ensures exists row :: row in r.value && row.address == Address(run.files[i].fileName, run.files[i].lines[j].lineNo)
      {
        var k := Address(run.files[i].fileName, run.files[i].lines[j].lineNo);
        var d := flat[k];
        var i' :| 0 <= i' < |run.files| && d.fileName == run.files[i'].fileName && d.line in run.files[i'].lines;
        assert d.line.duration >= t;
        assert Row(k, d) in r.value;
      }
    }
  }
}
