/**
 * Compressor selection of CMSXimg.cpp's `main`: the "-compress auto" decision
 * table and the "-compress best" benchmark over every candidate compressor.
 */
module Selection {
  import opened Wrappers
  import opened Compressors

  /** The sprite side thresholds of the crop compressors. */
  const CROP_BOUNDS: set<nat> := {16, 32, 256}

  /**
   * "-compress auto": a compressor chosen from the block size, transparency and
   * colour depth alone.
   */
  function AutoSelect(sizeX: int, sizeY: int, useTrans: bool, bpc: int): (c: Compressor)
    ensures sizeX == 0 || sizeY == 0 ==> c == Uncompressed
    ensures !useTrans ==> (c == RLE4 <==> sizeX != 0 && sizeY != 0 && bpc == 4)
    ensures !useTrans ==> c == Uncompressed || c == RLE4
    ensures useTrans ==> c == Uncompressed || IsCrop(c)
    ensures useTrans && (sizeX > 256 || sizeY > 256) ==> c == Uncompressed
    ensures useTrans && sizeX != 0 && sizeY != 0 && sizeX <= 256 && sizeY <= 256 ==>
      && IsCrop(c)
      && (IsCropLine(c) <==> bpc != 1 && bpc != 2)
      && sizeX <= CropBound(c) && sizeY <= CropBound(c)
      && forall b :: b in CROP_BOUNDS && sizeX <= b && sizeY <= b ==> CropBound(c) <= b
  {
    if sizeX == 0 || sizeY == 0 then Uncompressed
    else if useTrans then
      if bpc == 1 || bpc == 2 then
        if sizeX <= 16 && sizeY <= 16 then Crop16
        else if sizeX <= 32 && sizeY <= 32 then Crop32
        else if sizeX <= 256 && sizeY <= 256 then Crop256
        else Uncompressed
      else
        if sizeX <= 16 && sizeY <= 16 then CropLine16
        else if sizeX <= 32 && sizeY <= 32 then CropLine32
        else if sizeX <= 256 && sizeY <= 256 then CropLine256
        else Uncompressed
    else if bpc == 4 then RLE4
    else Uncompressed
  }

  /**
   * The benchmark's candidate table, in the order it is tried: every compressor,
   * each once.
   */
  function Candidates(): (cs: seq<Compressor>)
    ensures |cs| == 10
    ensures forall c :: c in cs
  {
    var cs := [Uncompressed, Crop16, CropLine16, Crop32, CropLine32, Crop256, CropLine256, RLE0, RLE4, RLE8];
    assert forall c :: c in cs by {
      forall c: Compressor ensures c in cs {
        if c.Uncompressed? { assert cs[0] == c; }
        else if c.Crop16? { assert cs[1] == c; }
        else if c.CropLine16? { assert cs[2] == c; }
        else if c.Crop32? { assert cs[3] == c; }
        else if c.CropLine32? { assert cs[4] == c; }
        else if c.Crop256? { assert cs[5] == c; }
        else if c.CropLine256? { assert cs[6] == c; }
        else if c.RLE0? { assert cs[7] == c; }
        else if c.RLE4? { assert cs[8] == c; }
        else { assert cs[9] == c; }
      }
    }
    cs
  }

  /** One successful benchmark run: a compressor and the byte count it produced. */
  datatype Trial = Trial(comp: Compressor, size: nat)

  /**
   * The successful runs over `cands`, in table order: the candidates that are
   * compatible and whose run produced a byte count.
   */
  function Trials(cands: seq<Compressor>, compatible: Compressor -> bool, run: Compressor -> Option<nat>): (ts: seq<Trial>)
    ensures |ts| <= |cands|
    ensures forall t :: t in ts ==> t.comp in cands && compatible(t.comp) && run(t.comp) == Some(t.size)
    ensures forall c :: c in cands && compatible(c) && run(c).Some? ==> Trial(c, run(c).value) in ts
  {
    if cands == [] then []
    else
      var last := cands[|cands| - 1];
      var before := Trials(cands[..|cands| - 1], compatible, run);
      assert cands == cands[..|cands| - 1] + [last];
      if compatible(last) && run(last).Some? then before + [Trial(last, run(last).value)] else before
  }

  /**
   * One step of the benchmark: a byte count of zero stands for "nothing kept
   * yet", otherwise a strictly smaller count replaces the kept one.
   */
  function Keep(best: Trial, t: Trial): (r: Trial)
    ensures r == best || r == t
    ensures best.size == 0 ==> r == t
    ensures best.size > 0 ==> r.size <= best.size && r.size <= t.size
    ensures best.size > 0 && best.size <= t.size ==> r == best
  {
    if best.size == 0 || t.size < best.size then t else best
  }

  /** The benchmark over the successful runs `ts`, starting from (None, 0). */
  function Benchmark(ts: seq<Trial>): (r: Trial)
    ensures ts == [] ==> r == Trial(Uncompressed, 0)
    ensures ts != [] ==> r in ts
  {
    if ts == [] then Trial(Uncompressed, 0)
    else Keep(Benchmark(ts[..|ts| - 1]), ts[|ts| - 1])
  }

  /** `k` is the first position in `ts` that holds a smallest byte count. */
  ghost predicate IsFirstMinimum(ts: seq<Trial>, k: int) {
    && 0 <= k < |ts|
    && (forall j :: 0 <= j < |ts| ==> ts[k].size <= ts[j].size)
    && (forall j :: 0 <= j < k ==> ts[k].size < ts[j].size)
  }

  ghost predicate AllPositive(ts: seq<Trial>) {
    forall j :: 0 <= j < |ts| ==> ts[j].size > 0
  }

  /**
   * When no run produced zero bytes, the benchmark keeps the first compressor,
   * in table order, whose byte count is the smallest of all successful runs.
   */
  lemma {:induction false} BenchmarkFindsFirstMinimum(ts: seq<Trial>)
    requires ts != [] && AllPositive(ts)
    ensures exists k :: IsFirstMinimum(ts, k) && Benchmark(ts) == ts[k]
  {
    var n := |ts|;
    var front, last := ts[..n - 1], ts[n - 1];
    assert ts == front + [last];
    BenchmarkStep(front, last);
    if front == [] {
      assert IsFirstMinimum(ts, 0);
    } else {
      PrefixAllPositive(ts);
      BenchmarkFindsFirstMinimum(front);
      var k :| IsFirstMinimum(front, k) && Benchmark(front) == front[k];
      assert front[k] == ts[k];
      if last.size < ts[k].size {
        FirstMinimumExtends(ts, k, n - 1);
      } else {
        FirstMinimumExtends(ts, k, k);
      }
    }
  }

  lemma PrefixAllPositive(ts: seq<Trial>)
    requires ts != [] && AllPositive(ts)
    ensures AllPositive(ts[..|ts| - 1])
  {
    var front := ts[..|ts| - 1];
    forall j | 0 <= j < |front| ensures front[j].size > 0 {
      assert front[j] == ts[j];
    }
  }

  /** Extending a first minimum of a prefix by one more trial. */
  lemma FirstMinimumExtends(ts: seq<Trial>, k: int, m: int)
    requires |ts| > 1 && IsFirstMinimum(ts[..|ts| - 1], k)
    requires m == k || m == |ts| - 1
    requires m == k <==> ts[k].size <= ts[|ts| - 1].size
    ensures IsFirstMinimum(ts, m)
  {
    var front := ts[..|ts| - 1];
    assert forall j :: 0 <= j < |front| ==> front[j] == ts[j];
  }

  /**
   * The "none yet" sentinel: after a run that produced zero bytes, the next
   * successful run is kept whatever its byte count.
   */
  lemma {:induction false} ZeroSizeIsOverwritten(ts: seq<Trial>, i: nat)
    requires i + 1 < |ts| && ts[i].size == 0
    ensures Benchmark(ts[..i + 1]) == ts[i]
    ensures Benchmark(ts[..i + 2]) == ts[i + 1]
  {
    assert ts[..i + 1][..i] == ts[..i];
    assert ts[..i + 2][..i + 1] == ts[..i + 1];
  }

  lemma TrialsStep(cands: seq<Compressor>, i: nat, compatible: Compressor -> bool, run: Compressor -> Option<nat>)
    requires i < |cands|
    ensures Trials(cands[..i + 1], compatible, run) ==
      Trials(cands[..i], compatible, run)
        + (if compatible(cands[i]) && run(cands[i]).Some? then [Trial(cands[i], run(cands[i]).value)] else [])
  {
    assert cands[..i + 1][..i] == cands[..i];
  }

  lemma BenchmarkStep(ts: seq<Trial>, t: Trial)
    ensures Benchmark(ts + [t]) == Keep(Benchmark(ts), t)
  {
    assert (ts + [t])[..|ts|] == ts;
  }

  /**
   * Table order: the runs of the first `k` candidates come first, so a trial
   * of an earlier candidate precedes every trial of a later one.
   */
  lemma {:induction false} TrialsPrefix(cands: seq<Compressor>, k: nat, compatible: Compressor -> bool, run: Compressor -> Option<nat>)
    requires k <= |cands|
    ensures Trials(cands[..k], compatible, run) <= Trials(cands, compatible, run)
  {
    if k < |cands| {
      var front := cands[..|cands| - 1];
      TrialsPrefix(front, k, compatible, run);
      assert front[..k] == cands[..k];
      var head := Trials(cands[..k], compatible, run);
      var mid := Trials(front, compatible, run);
      var full := Trials(cands, compatible, run);
      assert full[..|mid|] == mid;
      assert full[..|head|] == mid[..|head|] == head;
    } else {
      assert cands[..k] == cands;
    }
  }

  /**
   * When no run produced zero bytes, the kept byte count is at most the count
   * of every compatible candidate whose run succeeded.
   */
  lemma BenchmarkIsMinimum(cands: seq<Compressor>, compatible: Compressor -> bool, run: Compressor -> Option<nat>)
    requires AllPositive(Trials(cands, compatible, run))
    ensures forall c :: c in cands && compatible(c) && run(c).Some? ==>
      Benchmark(Trials(cands, compatible, run)).size <= run(c).value
  {
    var ts := Trials(cands, compatible, run);
    if ts != [] {
      BenchmarkFindsFirstMinimum(ts);
      forall c | c in cands && compatible(c) && run(c).Some?
        ensures Benchmark(ts).size <= run(c).value
      {
        var j :| 0 <= j < |ts| && ts[j] == Trial(c, run(c).value);
      }
    }
  }

  /** One candidate of the benchmark loop: a successful run goes through `Keep`. */
  lemma BenchmarkTrialsStep(cands: seq<Compressor>, i: nat, compatible: Compressor -> bool, run: Compressor -> Option<nat>)
    requires i < |cands|
    ensures Benchmark(Trials(cands[..i + 1], compatible, run)) ==
      if compatible(cands[i]) && run(cands[i]).Some?
      then Keep(Benchmark(Trials(cands[..i], compatible, run)), Trial(cands[i], run(cands[i]).value))
      else Benchmark(Trials(cands[..i], compatible, run))
  {
    TrialsStep(cands, i, compatible, run);
    if compatible(cands[i]) && run(cands[i]).Some? {
      BenchmarkStep(Trials(cands[..i], compatible, run), Trial(cands[i], run(cands[i]).value));
    } else {
      assert Trials(cands[..i + 1], compatible, run) == Trials(cands[..i], compatible, run);
    }
  }

  /**
   * "-compress best": try every candidate the oracle `compatible` admits, run the
   * whole export against a counting exporter (the oracle `run`, None for a parse
   * failure) and keep the smallest byte count.
   */
  method BestSelect(cands: seq<Compressor>, compatible: Compressor -> bool, run: Compressor -> Option<nat>)
    returns (bestComp: Compressor, bestSize: nat)
    ensures Trial(bestComp, bestSize) == Benchmark(Trials(cands, compatible, run))
    ensures Trials(cands, compatible, run) == [] ==> bestComp == Uncompressed && bestSize == 0
    ensures var ts := Trials(cands, compatible, run);
      ts != [] && AllPositive(ts) ==> exists k :: IsFirstMinimum(ts, k) && ts[k] == Trial(bestComp, bestSize)
    ensures AllPositive(Trials(cands, compatible, run)) ==>
      forall c :: c in cands && compatible(c) && run(c).Some? ==> bestSize <= run(c).value
  {
    bestSize := 0;
    bestComp := Uncompressed;
    for i := 0 to |cands|
      invariant Trial(bestComp, bestSize) == Benchmark(Trials(cands[..i], compatible, run))
    {
      var comp := cands[i];
      BenchmarkTrialsStep(cands, i, compatible, run);
      if compatible(comp) {
        var outcome := run(comp);
        if outcome.Some? && (bestSize == 0 || outcome.value < bestSize) {
          bestSize := outcome.value;
          bestComp := comp;
        }
      }
    }
    assert cands[..|cands|] == cands;
    var ts := Trials(cands, compatible, run);
    if ts != [] && AllPositive(ts) {
      BenchmarkFindsFirstMinimum(ts);
    }
    if AllPositive(ts) {
      BenchmarkIsMinimum(cands, compatible, run);
    }
  }
}
