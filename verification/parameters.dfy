/**
 * The export parameters record of exporter.h and the small enums it refers to.
 * Paths are strings; an unset path (NULL in the header, "" in the driver) is "".
 */
module Parameters {
  import opened Compressors

  /** Text format of numbers in the text exporters (`DataFormat`). */
  datatype DataFormat = Decimal | Hexa | HexaC | HexaAsm | HexaDollar | HexaSharp | Binary

  /** Palette source: the built-in MSX1 palette or a generated one. */
  datatype PaletteType = MSX1 | Custom

  /** Dithering method, used only at 1 bit per colour. */
  datatype DitheringMethod =
    | NoDither | Floyd | Bayer4 | Bayer8 | Bayer16 | Cluster6 | Cluster8 | Cluster16

  /** `ExportParameters`; the C++ i32 fields are unbounded integers here. */
  datatype ExportParameters = ExportParameters(
    inFile: string,
    outFile: string,
    tabName: string,
    posX: int,
    posY: int,
    sizeX: int,
    sizeY: int,
    numX: int,
    numY: int,
    bpc: int,
    useTrans: bool,
    transColor: bv32,
    palType: PaletteType,
    palCount: int,
    comp: Compressor,
    dataType: DataFormat,
    skipEmpty: bool,
    dither: DitheringMethod,
    addHeader: bool)

  /** The values the default constructor of `ExportParameters` assigns. */
  function Defaults(): (p: ExportParameters)
    ensures p.inFile == "" && p.outFile == "" && p.tabName == "table"
    ensures p.posX == 0 && p.posY == 0 && p.sizeX == 0 && p.sizeY == 0
    ensures p.numX == 1 && p.numY == 1
    ensures p.bpc == 8 && !p.useTrans && p.transColor == 0
    ensures p.palType == MSX1 && p.palCount == 15
    ensures p.comp == Uncompressed && p.dataType == Hexa
    ensures !p.skipEmpty && p.dither == NoDither && !p.addHeader
  {
    ExportParameters(
      inFile := "", outFile := "", tabName := "table",
      posX := 0, posY := 0, sizeX := 0, sizeY := 0, numX := 1, numY := 1,
      bpc := 8, useTrans := false, transColor := 0,
      palType := MSX1, palCount := 15, comp := Uncompressed, dataType := Hexa,
      skipEmpty := false, dither := NoDither, addHeader := false)
  }
}
