/**
 * The parameter handling of CMSXimg.cpp's `main` after the command line has been
 * read: palette count defaulting, compressor selection, validation and the
 * default output name, the correction chain, and the choice of exporter.
 */
module Driver {
  import opened Wrappers
  import opened Compressors
  import opened Parameters
  import opened Paths
  import opened Selection

  /** The output format selector ("-format"). */
  datatype OutFormat = Auto | C | Asm | Bin

  /** The fatal errors of the validation step. */
  datatype Error = MissingInput | MissingOutput | InvalidBpc | MissingCopyright

  /** What the conversion step does with the prepared parameters. */
  datatype ExportTarget = TextC | TextAsm | RawBinary | ImageConversion

  datatype Plan = Plan(param: ExportParameters, target: ExportTarget)

  /**
   * The colour depths the program accepts: 1, 2, 4 or 8 bits, which are exactly
   * the depths that pack a whole number of pixels into a byte.
   */
  predicate ValidBpc(bpc: int)
    ensures ValidBpc(bpc) <==> 0 < bpc <= 8 && 8 % bpc == 0
  {
    bpc == 1 || bpc == 2 || bpc == 4 || bpc == 8
  }

  function Pow2(n: nat): nat {
    if n == 0 then 1 else 2 * Pow2(n - 1)
  }

  /**
   * The largest palette count a colour depth allows: all indices but 0, which
   * is kept for transparency; only 2- and 4-bit colour have a limit.
   */
  function PaletteLimit(bpc: int): (r: Option<int>)
    ensures r.Some? <==> bpc == 2 || bpc == 4
    ensures r.Some? ==> r.value == Pow2(bpc) - 1
  {
    if bpc == 2 then Some(3) else if bpc == 4 then Some(15) else None
  }

  /** A palette count of -1 means "the default", which is the colour depth's limit. */
  function DefaultPalCount(palCount: int, bpc: int): (r: int)
    ensures palCount != -1 ==> r == palCount
    ensures palCount == -1 && PaletteLimit(bpc).Some? ==> r == PaletteLimit(bpc).value
    ensures PaletteLimit(bpc).None? ==> r == palCount
  {
    if palCount == -1 then
      if bpc == 2 then 3
      else if bpc == 4 then 15
      else palCount
    else palCount
  }

  /** A palette count above the colour depth's limit is lowered to the limit. */
  function ClampPalCount(palCount: int, bpc: int): (r: int)
    ensures PaletteLimit(bpc).Some? ==> r <= PaletteLimit(bpc).value
    ensures PaletteLimit(bpc).Some? && palCount <= PaletteLimit(bpc).value ==> r == palCount
    ensures PaletteLimit(bpc).Some? && palCount > PaletteLimit(bpc).value ==> r == PaletteLimit(bpc).value
    ensures PaletteLimit(bpc).None? ==> r == palCount
  {
    if bpc == 2 && palCount > 3 then 3
    else if bpc == 4 && palCount > 15 then 15
    else palCount
  }

  /**
   * The compressor/parameter combinations the correction chain lets through:
   * crop and RLE0 need a transparent colour, RLE needs 4 or 8 bits per colour,
   * and RLE4 is not used at 8 bits per colour.
   */
  predicate Allowed(c: Compressor, bpc: int, useTrans: bool) {
    && (!useTrans ==> !IsCrop(c) && c != RLE0)
    && ((bpc == 1 || bpc == 2) ==> !IsRLE(c))
    && (bpc == 8 ==> c != RLE4)
  }

  /** The outcome of the whole correction chain, in closed form. */
  function Corrected(comp: Compressor, bpc: int, useTrans: bool): (r: Compressor)
    ensures Allowed(r, bpc, useTrans)
    ensures Allowed(comp, bpc, useTrans) ==> r == comp
    ensures r == comp || r == Uncompressed || (comp == RLE4 && bpc == 8 && r == RLE8)
    ensures comp == RLE4 && bpc == 8 ==> r == RLE8
  {
    if (!useTrans && (IsCrop(comp) || comp == RLE0)) || ((bpc == 1 || bpc == 2) && IsRLE(comp)) then
      Uncompressed
    else if bpc == 8 && comp == RLE4 then RLE8
    else comp
  }

  /** Correcting twice gives the same as correcting once. */
  lemma CorrectedIdempotent(comp: Compressor, bpc: int, useTrans: bool)
    ensures Corrected(Corrected(comp, bpc, useTrans), bpc, useTrans) == Corrected(comp, bpc, useTrans)
  {
  }

  /**
   * The compressor corrections, run in source order. Each check only replaces
   * the compressor by None, except the RLE4 to RLE8 promotion.
   */
  method CorrectCompressor(p: ExportParameters) returns (q: ExportParameters)
    ensures q == p.(comp := Corrected(p.comp, p.bpc, p.useTrans))
    ensures Allowed(q.comp, q.bpc, q.useTrans)
  {
    var comp := p.comp;
    if !p.useTrans && IsCrop(comp) {
      comp := Uncompressed;
    }
    if !p.useTrans && comp == RLE0 {
      comp := Uncompressed;
    }
    if (p.bpc == 1 || p.bpc == 2) && IsRLE(comp) {
      comp := Uncompressed;
    }
    if p.bpc == 8 && comp == RLE4 {
      comp := RLE8;
    }
    q := p.(comp := comp);
  }

  /** The palette count corrections: at most 3 colours at 2 bits, at most 15 at 4 bits. */
  method ClampPalette(p: ExportParameters) returns (q: ExportParameters)
    ensures q == p.(palCount := ClampPalCount(p.palCount, p.bpc))
    ensures PaletteLimit(q.bpc).Some? ==> q.palCount <= PaletteLimit(q.bpc).value
  {
    var palCount := p.palCount;
    if p.bpc == 2 && palCount > 3 {
      palCount := 3;
    }
    if p.bpc == 4 && palCount > 15 {
      palCount := 15;
    }
    q := p.(palCount := palCount);
  }

  /** The extension of the default output name of an explicit format. */
  function DefaultExtension(format: OutFormat): (ext: string)
    requires format != Auto
    ensures format == C ==> ext == ".h"
    ensures format == Asm ==> ext == ".asm"
    ensures format == Bin ==> ext == ".bin"
    ensures |ext| > 1 && ext[0] == '.' && '.' !in ext[1..]
  {
    match format
    case C => ".h"
    case Asm => ".asm"
    case Bin => ".bin"
  }

  /** The default output name keeps the input's stem and carries the format's extension. */
  lemma DerivedName(inFile: string, format: OutFormat)
    requires format != Auto
    ensures var out := RemoveExt(inFile) + DefaultExtension(format);
      RemoveExt(out) == RemoveExt(inFile) && HaveExt(out, DefaultExtension(format))
  {
    var ext := DefaultExtension(format);
    RemoveExtAfterAppend(RemoveExt(inFile), ext);
    assert OccursAt(RemoveExt(inFile) + ext, ext, |RemoveExt(inFile)|);
  }

  /**
   * Validation: an input file is required; a missing output file is named after
   * the input with the format's extension, and is an error under "auto"; the
   * colour depth must be 1, 2, 4 or 8; a requested copyright file must exist
   * (`copyMissing`: the file-system query, made by the caller). Returns the
   * output file name.
   */
  function ValidateOutput(inFile: string, outFile: string, format: OutFormat, bpc: int, copyMissing: bool)
    : (r: Result<string, Error>)
    ensures r.Failure? <==> inFile == "" || (outFile == "" && format == Auto) || !ValidBpc(bpc) || copyMissing
    ensures inFile == "" ==> r == Failure(MissingInput)
    ensures inFile != "" && outFile == "" && format == Auto ==> r == Failure(MissingOutput)
    ensures r == Failure(InvalidBpc) <==> inFile != "" && !(outFile == "" && format == Auto) && !ValidBpc(bpc)
    ensures r == Failure(MissingCopyright) <==>
      inFile != "" && !(outFile == "" && format == Auto) && ValidBpc(bpc) && copyMissing
    ensures r.Success? ==> r.value != ""
    ensures r.Success? && outFile != "" ==> r.value == outFile
    ensures r.Success? && outFile == "" ==> r.value == RemoveExt(inFile) + DefaultExtension(format)
    ensures r.Success? && outFile == "" ==>
      && RemoveExt(r.value) == RemoveExt(inFile)
      && HaveExt(r.value, DefaultExtension(format))
  {
    if inFile == "" then Failure(MissingInput)
    else if outFile == "" && format == Auto then Failure(MissingOutput)
    else
      var out := if outFile == "" then RemoveExt(inFile) + DefaultExtension(format) else outFile;
      if !ValidBpc(bpc) then Failure(InvalidBpc)
      else if copyMissing then Failure(MissingCopyright)
      else
        if outFile == "" then
          DerivedName(inFile, format);
          Success(out)
        else Success(out)
  }

  /**
   * The exporter an explicit format selects, or under "auto" the first of
   * (".h" or ".inc") -> C, (".s" or ".asm") -> assembler, (".bin" or ".raw") -> binary
   * whose extension occurs in the output name; otherwise an image conversion.
   */
  function Dispatch(format: OutFormat, outFile: string): (t: ExportTarget)
    ensures format == C ==> t == TextC
    ensures format == Asm ==> t == TextAsm
    ensures format == Bin ==> t == RawBinary
    ensures t == ImageConversion ==> format == Auto
    ensures format == Auto ==> (t == TextC <==> HaveExt(outFile, ".h") || HaveExt(outFile, ".inc"))
    ensures format == Auto ==> (t == TextAsm <==>
      !HaveExt(outFile, ".h") && !HaveExt(outFile, ".inc") && (HaveExt(outFile, ".s") || HaveExt(outFile, ".asm")))
    ensures format == Auto ==> (t == RawBinary <==>
      && !HaveExt(outFile, ".h") && !HaveExt(outFile, ".inc")
      && !HaveExt(outFile, ".s") && !HaveExt(outFile, ".asm")
      && (HaveExt(outFile, ".bin") || HaveExt(outFile, ".raw")))
  {
    if format == C || (format == Auto && (HaveExt(outFile, ".h") || HaveExt(outFile, ".inc"))) then TextC
    else if format == Asm || (format == Auto && (HaveExt(outFile, ".s") || HaveExt(outFile, ".asm"))) then TextAsm
    else if format == Bin || (format == Auto && (HaveExt(outFile, ".bin") || HaveExt(outFile, ".raw"))) then RawBinary
    else assert format.Auto?; ImageConversion
  }

  /**
   * Extensions are matched as substrings: under "auto" an output named
   * "gfx.sprites.bin" goes to the assembler exporter, because it contains ".s".
   */
  lemma SubstringMatchWinsOverSuffix(name: string)
    requires name == "gfx.sprites.bin"
    ensures Dispatch(Auto, name) == TextAsm
  {
    MissingCharMeansNoExt(name, ".h", 1);
    MissingCharMeansNoExt(name, ".inc", 3);
    assert name[3..5] == ".s";
    assert OccursAt(name, ".s", 3);
  }

  /** The compressor the selection steps ask for, before the correction chain. */
  ghost function Requested(param: ExportParameters, autoCompress: bool, bestCompress: bool,
                           compatible: Compressor -> bool, run: Compressor -> Option<nat>): (c: Compressor)
    ensures bestCompress && Trials(Candidates(), compatible, run) == [] ==> c == Uncompressed
    ensures bestCompress && Trials(Candidates(), compatible, run) != [] ==> compatible(c) && run(c).Some?
    ensures !bestCompress && autoCompress ==> c == AutoSelect(param.sizeX, param.sizeY, param.useTrans, param.bpc)
    ensures !bestCompress && !autoCompress ==> c == param.comp
  {
    if bestCompress then Benchmark(Trials(Candidates(), compatible, run)).comp
    else if autoCompress then AutoSelect(param.sizeX, param.sizeY, param.useTrans, param.bpc)
    else param.comp
  }

  /** Step one of `main`: a palette count of -1 becomes the colour depth's default. */
  method ApplyPaletteDefault(p: ExportParameters) returns (q: ExportParameters)
    ensures q == p.(palCount := DefaultPalCount(p.palCount, p.bpc))
  {
    q := p;
    if q.palCount == -1 {
      if q.bpc == 2 {
        q := q.(palCount := 3);
      } else if q.bpc == 4 {
        q := q.(palCount := 15);
      }
    }
  }

  /** Step two of `main`: the auto selection, then the best selection, when asked for. */
  method SelectCompressor(p: ExportParameters, autoCompress: bool, bestCompress: bool,
                          compatible: Compressor -> bool, run: Compressor -> Option<nat>)
    returns (q: ExportParameters)
    ensures q == p.(comp := Requested(p, autoCompress, bestCompress, compatible, run))
  {
    q := p;
    if autoCompress {
      q := q.(comp := AutoSelect(q.sizeX, q.sizeY, q.useTrans, q.bpc));
    }
    if bestCompress {
      var bestComp, _ := BestSelect(Candidates(), compatible, run);
      q := q.(comp := bestComp);
    }
  }

  /**
   * `main` from the parsed parameters to the export: default the palette count,
   * run the auto and best selections when asked, validate, correct, and pick the
   * exporter. `copyMissing` stands for the copyright-file query; `compatible` and `run` stand for `IsCompressorCompatible` and a
   * `ParseImage` into a counting exporter.
   */
  method Prepare(param: ExportParameters, format: OutFormat, autoCompress: bool, bestCompress: bool,
                 copyMissing: bool, compatible: Compressor -> bool, run: Compressor -> Option<nat>)
    returns (r: Result<Plan, Error>)
    ensures var v := ValidateOutput(param.inFile, param.outFile, format, param.bpc, copyMissing);
      && (r.Failure? <==> v.Failure?)
      && (r.Failure? ==> r.error == v.error)
      && (r.Success? ==> r.value.param.outFile == v.value)
    ensures r.Success? ==>
      var q := r.value.param;
      && q == param.(outFile := q.outFile, comp := q.comp, palCount := q.palCount)
      && ValidBpc(q.bpc) && q.inFile != "" && q.outFile != ""
      && q.comp == Corrected(Requested(param, autoCompress, bestCompress, compatible, run), q.bpc, q.useTrans)
      && Allowed(q.comp, q.bpc, q.useTrans)
      && q.palCount == ClampPalCount(DefaultPalCount(param.palCount, param.bpc), param.bpc)
      && (PaletteLimit(q.bpc).Some? ==> q.palCount <= PaletteLimit(q.bpc).value)
      && r.value.target == Dispatch(format, q.outFile)
      && (r.value.target == ImageConversion ==> format == Auto)
  {
    var p := ApplyPaletteDefault(param);
    p := SelectCompressor(p, autoCompress, bestCompress, compatible, run);
    assert Requested(p, autoCompress, bestCompress, compatible, run)
        == Requested(param, autoCompress, bestCompress, compatible, run);
    var out := ValidateOutput(p.inFile, p.outFile, format, p.bpc, copyMissing);
    if out.Failure? {
      return Failure(out.error);
    }
    p := p.(outFile := out.value);
    p := CorrectCompressor(p);
    p := ClampPalette(p);
    r := Success(Plan(p, Dispatch(format, p.outFile)));
  }

  /** The default parameters pass validation's depth check and need no correction. */
  lemma DefaultsNeedNoCorrection()
    ensures ValidBpc(Defaults().bpc)
    ensures Corrected(Defaults().comp, Defaults().bpc, Defaults().useTrans) == Defaults().comp
    ensures ClampPalCount(DefaultPalCount(Defaults().palCount, Defaults().bpc), Defaults().bpc) == Defaults().palCount
    ensures AutoSelect(Defaults().sizeX, Defaults().sizeY, Defaults().useTrans, Defaults().bpc) == Defaults().comp
  {
  }
}
