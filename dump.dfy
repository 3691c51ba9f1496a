/**
 * `get_dump`: one file of the run, optionally with its lines regrouped by
 * block. In block mode the lines are cut into maximal runs of consecutive
 * lines with the same block key (`itertools.groupby`), and the runs are
 * collected under their key in source order (`setdefault(k, []).append`),
 * so a key that recurs after another key holds several runs.
 */
module Dump {
  import opened Decimal
  import opened Grouping
  import opened Profile

  /** `':'.join(str(bid) for bid in block_id)`. */
  function BlockKey(blockId: seq<int>): (k: string)
    ensures k == "" <==> blockId == []
  {
    if blockId == [] then ""
    else if |blockId| == 1 then IntToString(blockId[0])
    else BlockKey(blockId[..|blockId| - 1]) + ":" + IntToString(blockId[|blockId| - 1])
  }

  /** A key contains ':' exactly when the block id has two or more parts. */
  lemma BlockKeyColon(a: seq<int>)
    ensures ':' in BlockKey(a) <==> |a| > 1
  {
    if |a| > 1 {
      var init := BlockKey(a[..|a| - 1]);
      assert BlockKey(a)[|init|] == ':';
    }
  }

  /** A key of two or more parts is the key of all but the last part, ':', and the last part. */
  lemma BlockKeySnoc(a: seq<int>)
    requires |a| > 1
    ensures BlockKey(a) == BlockKey(a[..|a| - 1]) + ":" + IntToString(a[|a| - 1])
  {
  }

  /** Equal keys of two or more parts have equal last parts and equal keys for the rest. */
  lemma BlockKeyLastPart(a: seq<int>, b: seq<int>)
    requires |a| > 1 && |b| > 1
    requires BlockKey(a) == BlockKey(b)
    ensures BlockKey(a[..|a| - 1]) == BlockKey(b[..|b| - 1]) && a[|a| - 1] == b[|b| - 1]
  {
    var x, y := a[|a| - 1], b[|b| - 1];
    BlockKeySnoc(a);
    BlockKeySnoc(b);
    ColonSplitUnique(BlockKey(a[..|a| - 1]), IntToString(x), BlockKey(b[..|b| - 1]), IntToString(y));
    IntToStringInjective(x, y);
  }

  /** Two lines get the same block key only when their block ids are equal. */
  lemma {:induction false} BlockKeyInjective(a: seq<int>, b: seq<int>)
    requires BlockKey(a) == BlockKey(b)
    ensures a == b
    decreases |a|
  {
    BlockKeyColon(a);
    BlockKeyColon(b);
    if |a| == 1 {
      IntToStringInjective(a[0], b[0]);
      assert a == [a[0]] && b == [b[0]];
    } else if |a| > 1 {
      BlockKeyLastPart(a, b);
      BlockKeyInjective(a[..|a| - 1], b[..|b| - 1]);
      assert a == a[..|a| - 1] + [a[|a| - 1]] && b == b[..|b| - 1] + [b[|b| - 1]];
    }
  }

  function LineBlockKey(l: LineProfile): string
  {
    BlockKey(l.blockId)
  }

  /** The key of a run of lines: the key of its first line (the key groupby yields with it). */
  function RunKey(run: seq<LineProfile>): string
  {
    if run == [] then "" else LineBlockKey(run[0])
  }

  /** The block-mode regrouping of a file's lines: `file_profile_by_block`. */
  function ByBlock(lines: seq<LineProfile>): map<string, seq<seq<LineProfile>>>
  {
    GroupBy(Runs(lines, LineBlockKey), RunKey)
  }

  /** A dump's `file_profile`: the lines as they are, or regrouped by block. */
  datatype DumpBody = Lines(lines: seq<LineProfile>) | Blocks(blocks: map<string, seq<seq<LineProfile>>>)

  /** The value `get_dump` returns: a copy of the file entry with `file_profile` possibly replaced. */
  datatype FileDump = FileDump(fileName: string, duration: real, body: DumpBody)

  /** The loop over groupby's runs: each run is appended under its key. */
  method GroupBlocks(lines: seq<LineProfile>) returns (byBlock: map<string, seq<seq<LineProfile>>>)
    ensures byBlock == ByBlock(lines)
  {
    var runs := Runs(lines, LineBlockKey);
    byBlock := map[];
    var j := 0;
    while j < |runs|
      invariant 0 <= j <= |runs|
      invariant byBlock == GroupBy(runs[..j], RunKey)
    {
      var run := runs[j];
      GroupByPrefixStep(runs, RunKey, j);
      byBlock := AppendUnder(byBlock, RunKey(run), run);
      j := j + 1;
    }
    assert runs[..j] == runs;
  }

  /**
   * `get_dump`: resolves the file (its errors propagate) and returns its
   * copy, with the lines regrouped by block when block mode is asked for.
   * The threshold parameter `t` of the source is never read and is omitted.
   */
  method GetDump(run: ProfileRun, desc: Descriptor, blockMode: bool) returns (r: Result<FileDump>)
    ensures ResolveFile(run, desc).Err? ==> r == Err(ResolveFile(run, desc).error)
    ensures ResolveFile(run, desc).Ok? ==>
      var f := ResolveFile(run, desc).value.1;
      && r.Ok?
      && r.value.fileName == f.fileName
      && r.value.duration == f.duration
      && r.value.body == (if blockMode then Blocks(ByBlock(f.lines)) else Lines(f.lines))
  {
    var resolved := ResolveFile(run, desc);
    if resolved.Err? {
      return Err(resolved.error);
    }
    var f := resolved.value.1;
    var body := Lines(f.lines);
    if blockMode {
      var byBlock := GroupBlocks(f.lines);
      body := Blocks(byBlock);
    }
    r := Ok(FileDump(f.fileName, f.duration, body));
  }

  /**
   * The runs of a file's lines are maximal: each is non-empty and of one
   * block key, neighbouring runs have different keys, and concatenating
   * them in order gives back the lines. Only this cut has these properties.
   */
  lemma BlockRunsAreMaximal(lines: seq<LineProfile>)
    ensures Flatten(Runs(lines, LineBlockKey)) == lines
    ensures forall i :: 0 <= i < |Runs(lines, LineBlockKey)| ==> Runs(lines, LineBlockKey)[i] != []
    ensures forall i, j :: 0 <= i < |Runs(lines, LineBlockKey)| && 0 <= j < |Runs(lines, LineBlockKey)[i]| ==>
      LineBlockKey(Runs(lines, LineBlockKey)[i][j]) == RunKey(Runs(lines, LineBlockKey)[i])
    ensures forall i :: 0 < i < |Runs(lines, LineBlockKey)| ==>
      RunKey(Runs(lines, LineBlockKey)[i - 1]) != RunKey(Runs(lines, LineBlockKey)[i])
    ensures forall rs :: IsRunDecomposition(rs, lines, LineBlockKey) ==> rs == Runs(lines, LineBlockKey)
  {
    RunsDecompose(lines, LineBlockKey);
    forall rs | IsRunDecomposition(rs, lines, LineBlockKey) ensures rs == Runs(lines, LineBlockKey) {
      RunDecompositionUnique(rs, lines, LineBlockKey);
    }
  }

  /** Every line's block key is a key of the block map. */
  lemma LineKeyInByBlock(lines: seq<LineProfile>, j: nat)
    requires j < |lines|
    ensures LineBlockKey(lines[j]) in ByBlock(lines)
  {
    var runs := Runs(lines, LineBlockKey);
    RunsDecompose(lines, LineBlockKey);
    FlattenMember(runs, lines[j]);
    var i :| 0 <= i < |runs| && lines[j] in runs[i];
    var q :| 0 <= q < |runs[i]| && runs[i][q] == lines[j];
    assert RunKey(runs[i]) == LineBlockKey(lines[j]);
    assert RunKey(runs[i]) in KeySet(runs, RunKey);
  }

  /** Every key of the block map is the block key of some line. */
  lemma ByBlockKeyOfLine(lines: seq<LineProfile>, k: string)
    requires k in ByBlock(lines)
    ensures exists j :: 0 <= j < |lines| && LineBlockKey(lines[j]) == k
  {
    var runs := Runs(lines, LineBlockKey);
    RunsDecompose(lines, LineBlockKey);
    var i :| 0 <= i < |runs| && RunKey(runs[i]) == k;
    assert runs[i] != [];
    FlattenMember(runs, runs[i][0]);
    var j :| 0 <= j < |lines| && lines[j] == runs[i][0];
    assert LineBlockKey(lines[j]) == k;
  }

  /** The keys of the block map are exactly the block keys of the file's lines. */
  lemma ByBlockKeys(lines: seq<LineProfile>)
    ensures forall j :: 0 <= j < |lines| ==> LineBlockKey(lines[j]) in ByBlock(lines)
    ensures forall k :: k in ByBlock(lines) ==> exists j :: 0 <= j < |lines| && LineBlockKey(lines[j]) == k
  {
    forall j | 0 <= j < |lines| ensures LineBlockKey(lines[j]) in ByBlock(lines) {
      LineKeyInByBlock(lines, j);
    }
    forall k | k in ByBlock(lines) ensures exists j :: 0 <= j < |lines| && LineBlockKey(lines[j]) == k {
      ByBlockKeyOfLine(lines, k);
    }
  }

  /**
   * The block map is a lossless regrouping of the runs: every run is under
   * its own key as often as it occurs, and the runs under a key are the runs
   * with that key, in source order.
   */
  lemma ByBlockLossless(lines: seq<LineProfile>)
    ensures forall i :: 0 <= i < |Runs(lines, LineBlockKey)| ==>
      RunKey(Runs(lines, LineBlockKey)[i]) in ByBlock(lines) &&
      multiset(ByBlock(lines)[RunKey(Runs(lines, LineBlockKey)[i])])[Runs(lines, LineBlockKey)[i]]
        == multiset(Runs(lines, LineBlockKey))[Runs(lines, LineBlockKey)[i]]
    ensures forall k, run :: k in ByBlock(lines) && run in ByBlock(lines)[k] ==>
      run in Runs(lines, LineBlockKey) && RunKey(run) == k
    ensures forall k :: k in ByBlock(lines) ==> ByBlock(lines)[k] == Select(Runs(lines, LineBlockKey), RunKey, k)
  {
    var runs := Runs(lines, LineBlockKey);
    assert ByBlock(lines) == GroupBy(runs, RunKey);
    GroupByLossless(runs, RunKey);
  }

  /**
   * Block ids 1, 1, 2, 1, 1 give three runs, two of them under key "1":
   * `{"1": [[l0, l1], [l3, l4]], "2": [[l2]]}`.
   */
  lemma BlockModeExample(l0: LineProfile, l1: LineProfile, l2: LineProfile, l3: LineProfile, l4: LineProfile)
    requires l0.blockId == [1] && l1.blockId == [1] && l2.blockId == [2] && l3.blockId == [1] && l4.blockId == [1]
    ensures Runs([l0, l1, l2, l3, l4], LineBlockKey) == [[l0, l1], [l2], [l3, l4]]
    ensures ByBlock([l0, l1, l2, l3, l4]) == map["1" := [[l0, l1], [l3, l4]], "2" := [[l2]]]
  {
    ExampleKeys();
    ExampleRuns(l0, l1, l2, l3, l4);
    ExampleGroups([l0, l1], [l2], [l3, l4]);
  }

  lemma ExampleKeys()
    ensures BlockKey([1]) == "1" && BlockKey([2]) == "2"
  {
    assert IntToString(1) == "1" && IntToString(2) == "2";
  }

  lemma ExampleGroups(r0: seq<LineProfile>, r1: seq<LineProfile>, r2: seq<LineProfile>)
    requires RunKey(r0) == RunKey(r2) == "1" && RunKey(r1) == "2"
    ensures GroupBy([r0, r1, r2], RunKey) == map["1" := [r0, r2], "2" := [r1]]
  {
    GroupByThree(r0, r1, r2, RunKey);
    ExampleAppends(r0, r1, r2);
  }

  lemma ExampleAppends(r0: seq<LineProfile>, r1: seq<LineProfile>, r2: seq<LineProfile>)
    ensures AppendUnder(AppendUnder(AppendUnder(map[], "1", r0), "2", r1), "1", r2) == map["1" := [r0, r2], "2" := [r1]]
  {
    assert "1"[0] != "2"[0];
    assert [] + [r1] == [r1] && [] + [r0] == [r0] && [r0] + [r2] == [r0, r2];
    assert AppendUnder(map[], "1", r0) == map["1" := [r0]];
    assert AppendUnder(map["1" := [r0]], "2", r1) == map["1" := [r0], "2" := [r1]];
  }

  lemma ExampleRuns(l0: LineProfile, l1: LineProfile, l2: LineProfile, l3: LineProfile, l4: LineProfile)
    requires LineBlockKey(l0) == LineBlockKey(l1) == LineBlockKey(l3) == LineBlockKey(l4) != LineBlockKey(l2)
    ensures Runs([l0, l1, l2, l3, l4], LineBlockKey) == [[l0, l1], [l2], [l3, l4]]
  {
    var s := [l0, l1, l2, l3, l4];
    var t := [l2, l3, l4];
    var u := [l3, l4];
    assert RunLength(u[1..], LineBlockKey) == 1;
    assert RunLength(u, LineBlockKey) == 2;
    assert u[..2] == u && u[2..] == [];
    assert Runs(u, LineBlockKey) == [u];
    assert RunLength(t, LineBlockKey) == 1;
    assert t[..1] == [l2] && t[1..] == u;
    assert Runs(t, LineBlockKey) == [[l2], u];
    assert s[1..] == [l1, l2, l3, l4];
    assert RunLength(s[1..], LineBlockKey) == 1;
    assert RunLength(s, LineBlockKey) == 2;
    assert s[..2] == [l0, l1] && s[2..] == t;
  }
}
