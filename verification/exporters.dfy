/**
 * The exporters of exporter.h. Every exporter receives the same sequence of
 * write calls; each keeps a byte counter (`TotalBytes`). The binary exporter
 * appends the bytes themselves, the dummy exporter only counts them (it is the
 * probe of the "best" benchmark), the C and assembler exporters append text.
 *
 * Each exporter object records the calls it received in a ghost `trace`, so
 * that exporters fed the same calls can be compared.
 */
module Exporters {
  import opened Parameters

  /** One call of the exporter interface, with its arguments. */
  datatype Call =
    | Header
    | TableBegin(name: string, comment: string)
    | SpriteHeader(number: int)
    | ByteLine1(a: bv8, comment: string)
    | ByteLine2(a: bv8, b: bv8, comment: string)
    | ByteLine4(a: bv8, b: bv8, c: bv8, d: bv8, comment: string)
    | WordLine1(w: bv16, comment: string)
    | WordLine2(w: bv16, v: bv16, comment: string)
    | LineBegin
    | ByteData(data: bv8)
    | BitsData(data: bv8)
    | LineEnd
    | TableEnd(comment: string)

  /** `w & 0x00FF`, as a byte. */
  function LowByte(w: bv16): bv8 {
    (w & 0x00FF) as bv8
  }

  /** `w >> 8`, as a byte. */
  function HighByte(w: bv16): bv8 {
    (w >> 8) as bv8
  }

  /** The two bytes of a 16-bit word, low byte first. */
  function WordBytes(w: bv16): (bs: seq<bv8>)
    ensures |bs| == 2
  {
    [LowByte(w), HighByte(w)]
  }

  /** Words are written little-endian: the low byte, then the high byte, rebuild the word. */
  lemma WordBytesLittleEndian(w: bv16)
    ensures (((WordBytes(w)[1] as bv16) << 8) | (WordBytes(w)[0] as bv16)) == w
  {
  }

  /** The calls that only frame the data: they write no byte. */
  predicate Framing(c: Call) {
    c.Header? || c.TableBegin? || c.SpriteHeader? || c.LineBegin? || c.LineEnd? || c.TableEnd?
  }

  /**
   * What the binary exporter appends for a call: as many bytes as a counting
   * exporter adds to `TotalBytes` for it.
   */
  function Bytes(c: Call): (bs: seq<bv8>)
    ensures |bs| == Weight(c)
  {
    match c
    case ByteLine1(a, _) => [a]
    case ByteLine2(a, b, _) => [a, b]
    case ByteLine4(a, b, x, d, _) => [a, b, x, d]
    case WordLine1(w, _) => WordBytes(w)
    case WordLine2(w, v, _) => WordBytes(w) + WordBytes(v)
    case ByteData(data) => [data]
    case BitsData(data) => [data]
    case _ => []
  }

  /** What a counting exporter adds to `TotalBytes` for a call: nothing for framing, 1 to 4 for data. */
  function Weight(c: Call): (w: nat)
    ensures w == 0 <==> Framing(c)
    ensures w <= 4
  {
    match c
    case ByteLine1(_, _) => 1
    case ByteLine2(_, _, _) => 2
    case ByteLine4(_, _, _, _, _) => 4
    case WordLine1(_, _) => 2
    case WordLine2(_, _, _) => 4
    case ByteData(_) => 1
    case BitsData(_) => 1
    case _ => 0
  }

  /** The binary exporter's whole output for a call sequence. */
  function Emitted(trace: seq<Call>): seq<bv8> {
    if trace == [] then [] else Emitted(trace[..|trace| - 1]) + Bytes(trace[|trace| - 1])
  }

  /** A counting exporter's total for a call sequence. */
  function Counted(trace: seq<Call>): nat {
    if trace == [] then 0 else Counted(trace[..|trace| - 1]) + Weight(trace[|trace| - 1])
  }

  lemma EmittedAppend(trace: seq<Call>, c: Call)
    ensures Emitted(trace + [c]) == Emitted(trace) + Bytes(c)
  {
    assert (trace + [c])[..|trace|] == trace;
  }

  lemma CountedAppend(trace: seq<Call>, c: Call)
    ensures Counted(trace + [c]) == Counted(trace) + Weight(c)
  {
    assert (trace + [c])[..|trace|] == trace;
  }

  /** For every call sequence the counters equal the length of the binary output. */
  lemma {:induction false} EmittedLength(trace: seq<Call>)
    ensures |Emitted(trace)| == Counted(trace)
  {
    if trace != [] {
      EmittedLength(trace[..|trace| - 1]);
    }
  }

  /** `ExporterBin`: appends raw bytes to `outData`. */
  class ExporterBin {
    const format: DataFormat
    var outData: seq<bv8>
    var totalBytes: nat
    ghost var trace: seq<Call>

    ghost predicate Valid()
      reads this
    {
      outData == Emitted(trace) && totalBytes == |outData|
    }

    constructor(format: DataFormat)
      ensures Valid() && this.format == format
      ensures trace == [] && outData == [] && totalBytes == 0
    {
      this.format := format;
      outData := [];
      totalBytes := 0;
      trace := [];
    }

    function GetTotalBytes(): (n: nat)
      reads this
      requires Valid()
      ensures n == |outData|
      ensures n == Counted(trace)
    {
      EmittedLength(trace);
      totalBytes
    }

    method WriteHeader()
      requires Valid()
      modifies this
      ensures Valid() && trace == old(trace) + [Header]
      ensures outData == old(outData) && totalBytes == old(totalBytes)
    {
      EmittedAppend(trace, Header);
      trace := trace + [Header];
    }

    method WriteTableBegin(name: string, comment: string)
      requires Valid()
      modifies this
      ensures Valid() && trace == old(trace) + [TableBegin(name, comment)]
      ensures outData == old(outData) && totalBytes == old(totalBytes)
    {
      EmittedAppend(trace, TableBegin(name, comment));
      trace := trace + [TableBegin(name, comment)];
    }

    method WriteSpriteHeader(number: int)
      requires Valid()
      modifies this
      ensures Valid() && trace == old(trace) + [SpriteHeader(number)]
      ensures outData == old(outData) && totalBytes == old(totalBytes)
    {
      EmittedAppend(trace, SpriteHeader(number));
      trace := trace + [SpriteHeader(number)];
    }

    method Write1ByteLine(a: bv8, comment: string)
      requires Valid()
      modifies this
      ensures Valid() && trace == old(trace) + [ByteLine1(a, comment)]
      ensures outData == old(outData) + [a] && totalBytes == old(totalBytes) + 1
    {
      EmittedAppend(trace, ByteLine1(a, comment));
      outData := outData + [a];
      totalBytes := totalBytes + 1;
      trace := trace + [ByteLine1(a, comment)];
    }

    method Write2BytesLine(a: bv8, b: bv8, comment: string)
      requires Valid()
      modifies this
      ensures Valid() && trace == old(trace) + [ByteLine2(a, b, comment)]
      ensures outData == old(outData) + [a, b] && totalBytes == old(totalBytes) + 2
    {
      EmittedAppend(trace, ByteLine2(a, b, comment));
      outData := outData + [a];
      outData := outData + [b];
      totalBytes := totalBytes + 2;
      trace := trace + [ByteLine2(a, b, comment)];
    }

    method Write4BytesLine(a: bv8, b: bv8, c: bv8, d: bv8, comment: string)
      requires Valid()
      modifies this
      ensures Valid() && trace == old(trace) + [ByteLine4(a, b, c, d, comment)]
      ensures outData == old(outData) + [a, b, c, d] && totalBytes == old(totalBytes) + 4
    {
      EmittedAppend(trace, ByteLine4(a, b, c, d, comment));
      ghost var before := outData;
      outData := outData + [a];
      outData := outData + [b];
      assert outData == before + [a, b];
      outData := outData + [c];
      outData := outData + [d];
      assert outData == before + [a, b, c, d];
      totalBytes := totalBytes + 4;
      trace := trace + [ByteLine4(a, b, c, d, comment)];
    }

    /**
     * Pushes the low byte of `w`, then its high byte. Only an internal step of
     * `Write1WordLine` and `Write2WordsLine`: it grows `outData` without
     * recording a call, so it leaves `Valid()` broken until its caller extends
     * `trace` and `totalBytes`.
     */
    method PushWord(w: bv16)
      modifies this
      ensures outData == old(outData) + WordBytes(w)
      ensures totalBytes == old(totalBytes) && trace == old(trace)
    {
      outData := outData + [LowByte(w)];
      outData := outData + [HighByte(w)];
    }

    method Write1WordLine(a: bv16, comment: string)
      requires Valid()
      modifies this
      ensures Valid() && trace == old(trace) + [WordLine1(a, comment)]
      ensures outData == old(outData) + WordBytes(a) && totalBytes == old(totalBytes) + 2
    {
      EmittedAppend(trace, WordLine1(a, comment));
      PushWord(a);
      totalBytes := totalBytes + 2;
      trace := trace + [WordLine1(a, comment)];
    }

    method Write2WordsLine(a: bv16, b: bv16, comment: string)
      requires Valid()
      modifies this
      ensures Valid() && trace == old(trace) + [WordLine2(a, b, comment)]
      ensures outData == old(outData) + WordBytes(a) + WordBytes(b) && totalBytes == old(totalBytes) + 4
    {
      EmittedAppend(trace, WordLine2(a, b, comment));
      PushWord(a);
      PushWord(b);
      totalBytes := totalBytes + 4;
      trace := trace + [WordLine2(a, b, comment)];
    }

    method WriteLineBegin()
      requires Valid()
      modifies this
      ensures Valid() && trace == old(trace) + [LineBegin]
      ensures outData == old(outData) && totalBytes == old(totalBytes)
    {
      EmittedAppend(trace, LineBegin);
      trace := trace + [LineBegin];
    }

    method Write1ByteData(data: bv8)
      requires Valid()
      modifies this
      ensures Valid() && trace == old(trace) + [ByteData(data)]
      ensures outData == old(outData) + [data] && totalBytes == old(totalBytes) + 1
    {
      EmittedAppend(trace, ByteData(data));
      outData := outData + [data];
      totalBytes := totalBytes + 1;
      trace := trace + [ByteData(data)];
    }

    method Write8BitsData(data: bv8)
      requires Valid()
      modifies this
      ensures Valid() && trace == old(trace) + [BitsData(data)]
      ensures outData == old(outData) + [data] && totalBytes == old(totalBytes) + 1
    {
      EmittedAppend(trace, BitsData(data));
      outData := outData + [data];
      totalBytes := totalBytes + 1;
      trace := trace + [BitsData(data)];
    }

    method WriteLineEnd()
      requires Valid()
      modifies this
      ensures Valid() && trace == old(trace) + [LineEnd]
      ensures outData == old(outData) && totalBytes == old(totalBytes)
    {
      EmittedAppend(trace, LineEnd);
      trace := trace + [LineEnd];
    }

    method WriteTableEnd(comment: string)
      requires Valid()
      modifies this
      ensures Valid() && trace == old(trace) + [TableEnd(comment)]
      ensures outData == old(outData) && totalBytes == old(totalBytes)
    {
      EmittedAppend(trace, TableEnd(comment));
      trace := trace + [TableEnd(comment)];
    }
  }

  /** `ExporterDummy`: counts the bytes a binary export would write, and keeps nothing else. */
  class ExporterDummy {
    const format: DataFormat
    var totalBytes: nat
    ghost var trace: seq<Call>

    ghost predicate Valid()
      reads this
    {
      totalBytes == Counted(trace)
    }

    constructor(format: DataFormat)
      ensures Valid() && this.format == format
      ensures trace == [] && totalBytes == 0
    {
      this.format := format;
      totalBytes := 0;
      trace := [];
    }

    function GetTotalBytes(): (n: nat)
      reads this
      requires Valid()
      ensures n == Counted(trace)
    {
      totalBytes
    }

    method WriteHeader()
      requires Valid()
      modifies this
      ensures Valid() && trace == old(trace) + [Header]
      ensures totalBytes == old(totalBytes)
    {
      CountedAppend(trace, Header);
      trace := trace + [Header];
    }

    method WriteTableBegin(name: string, comment: string)
      requires Valid()
      modifies this
      ensures Valid() && trace == old(trace) + [TableBegin(name, comment)]
      ensures totalBytes == old(totalBytes)
    {
      CountedAppend(trace, TableBegin(name, comment));
      trace := trace + [TableBegin(name, comment)];
    }

    method WriteSpriteHeader(number: int)
      requires Valid()
      modifies this
      ensures Valid() && trace == old(trace) + [SpriteHeader(number)]
      ensures totalBytes == old(totalBytes)
    {
      CountedAppend(trace, SpriteHeader(number));
      trace := trace + [SpriteHeader(number)];
    }

    method Write1ByteLine(a: bv8, comment: string)
      requires Valid()
      modifies this
      ensures Valid() && trace == old(trace) + [ByteLine1(a, comment)]
      ensures totalBytes == old(totalBytes) + 1
    {
      CountedAppend(trace, ByteLine1(a, comment));
      totalBytes := totalBytes + 1;
      trace := trace + [ByteLine1(a, comment)];
    }

    method Write2BytesLine(a: bv8, b: bv8, comment: string)
      requires Valid()
      modifies this
      ensures Valid() && trace == old(trace) + [ByteLine2(a, b, comment)]
      ensures totalBytes == old(totalBytes) + 2
    {
      CountedAppend(trace, ByteLine2(a, b, comment));
      totalBytes := totalBytes + 2;
      trace := trace + [ByteLine2(a, b, comment)];
    }

    method Write4BytesLine(a: bv8, b: bv8, c: bv8, d: bv8, comment: string)
      requires Valid()
      modifies this
      ensures Valid() && trace == old(trace) + [ByteLine4(a, b, c, d, comment)]
      ensures totalBytes == old(totalBytes) + 4
    {
      CountedAppend(trace, ByteLine4(a, b, c, d, comment));
      totalBytes := totalBytes + 4;
      trace := trace + [ByteLine4(a, b, c, d, comment)];
    }

    method Write1WordLine(a: bv16, comment: string)
      requires Valid()
      modifies this
      ensures Valid() && trace == old(trace) + [WordLine1(a, comment)]
      ensures totalBytes == old(totalBytes) + 2
    {
      CountedAppend(trace, WordLine1(a, comment));
      totalBytes := totalBytes + 2;
      trace := trace + [WordLine1(a, comment)];
    }

    method Write2WordsLine(a: bv16, b: bv16, comment: string)
      requires Valid()
      modifies this
      ensures Valid() && trace == old(trace) + [WordLine2(a, b, comment)]
      ensures totalBytes == old(totalBytes) + 4
    {
      CountedAppend(trace, WordLine2(a, b, comment));
      totalBytes := totalBytes + 4;
      trace := trace + [WordLine2(a, b, comment)];
    }

    method WriteLineBegin()
      requires Valid()
      modifies this
      ensures Valid() && trace == old(trace) + [LineBegin]
      ensures totalBytes == old(totalBytes)
    {
      CountedAppend(trace, LineBegin);
      trace := trace + [LineBegin];
    }

    method Write1ByteData(data: bv8)
      requires Valid()
      modifies this
      ensures Valid() && trace == old(trace) + [ByteData(data)]
      ensures totalBytes == old(totalBytes) + 1
    {
      CountedAppend(trace, ByteData(data));
      totalBytes := totalBytes + 1;
      trace := trace + [ByteData(data)];
    }

    method Write8BitsData(data: bv8)
      requires Valid()
      modifies this
      ensures Valid() && trace == old(trace) + [BitsData(data)]
      ensures totalBytes == old(totalBytes) + 1
    {
      CountedAppend(trace, BitsData(data));
      totalBytes := totalBytes + 1;
      trace := trace + [BitsData(data)];
    }

    method WriteLineEnd()
      requires Valid()
      modifies this
      ensures Valid() && trace == old(trace) + [LineEnd]
      ensures totalBytes == old(totalBytes)
    {
      CountedAppend(trace, LineEnd);
      trace := trace + [LineEnd];
    }

    method WriteTableEnd(comment: string)
      requires Valid()
      modifies this
      ensures Valid() && trace == old(trace) + [TableEnd(comment)]
      ensures totalBytes == old(totalBytes)
    {
      CountedAppend(trace, TableEnd(comment));
      trace := trace + [TableEnd(comment)];
    }
  }

  /**
   * An upper-case hexadecimal conversion zero-padded to two digits per byte
   * (two for one byte, four otherwise), between `prefix` and `suffix`.
   */
  function HexConversion(prefix: string, bytes: int, suffix: string): string {
    prefix + "%0" + (if bytes == 1 then "2" else "4") + "X" + suffix
  }

  /** The language of a text exporter: `ExporterC` or `ExporterASM`. */
  datatype Language = CLanguage | Assembler

  /**
   * `ExporterC` and `ExporterASM`: append source text to `outData`. The text of a
   * data record comes from printf-style formatting, which is not modelled: those
   * writers take the formatted text as the parameter `text`. The fixed framing
   * strings are modelled exactly.
   */
  class ExporterText {
    const lang: Language
    const format: DataFormat
    var outData: string
    var totalBytes: nat
    ghost var trace: seq<Call>

    ghost predicate Valid()
      reads this
    {
      totalBytes == Counted(trace)
    }

    constructor(lang: Language, format: DataFormat)
      ensures Valid() && this.lang == lang && this.format == format
      ensures trace == [] && outData == "" && totalBytes == 0
    {
      this.lang := lang;
      this.format := format;
      outData := "";
      totalBytes := 0;
      trace := [];
    }

    function GetTotalBytes(): (n: nat)
      reads this
      requires Valid()
      ensures n == Counted(trace)
    {
      totalBytes
    }

    /**
     * The printf conversion used for a number of `bytes` bytes in this exporter's
     * data format: decimal, or upper-case hexadecimal in the notation of the format.
     */
    function GetNumberFormat(bytes: int): (f: string)
      ensures lang == CLanguage ==> (f == "%3u" <==> format == Decimal)
      ensures lang == CLanguage && format != Decimal ==> f == HexConversion("0x", bytes, "")
      ensures lang == Assembler ==> (f == "%3u" <==> format == Decimal || format == Binary)
      ensures lang == Assembler && (format == Hexa || format == HexaC) ==> f == HexConversion("0x", bytes, "")
      ensures lang == Assembler && format == HexaAsm ==> f == HexConversion("0", bytes, "h")
      ensures lang == Assembler && format == HexaDollar ==> f == HexConversion("$", bytes, "")
      ensures lang == Assembler && format == HexaSharp ==> f == HexConversion("#", 1, "")
    {
      match lang
      case CLanguage =>
        (match format
         case Decimal => "%3u"
         case _ => if bytes == 1 then "0x%02X" else "0x%04X")
      case Assembler =>
        (match format
         case Hexa => if bytes == 1 then "0x%02X" else "0x%04X"
         case HexaC => if bytes == 1 then "0x%02X" else "0x%04X"
         case HexaAsm => if bytes == 1 then "0%02Xh" else "0%04Xh"
         case HexaDollar => if bytes == 1 then "$%02X" else "$%04X"
         case HexaSharp => "#%02X"
         case _ => "%3u")
    }

    /** Appends the header comment block; `text` is that block as formatted. */
    method WriteHeader(text: string)
      requires Valid()
      modifies this
      ensures Valid() && trace == old(trace) + [Header]
      ensures outData == old(outData) + text && totalBytes == old(totalBytes)
    {
      CountedAppend(trace, Header);
      outData := outData + text;
      trace := trace + [Header];
    }

    method WriteTableBegin(name: string, comment: string)
      requires Valid()
      modifies this
      ensures Valid() && trace == old(trace) + [TableBegin(name, comment)]
      ensures lang == CLanguage ==>
        outData == old(outData) + "\n// " + comment + "\nconst unsigned char " + name + "[] =\n{\n"
      ensures lang == Assembler ==> outData == old(outData) + "\n; " + comment + "\n" + name + ":\n"
      ensures totalBytes == old(totalBytes)
    {
      CountedAppend(trace, TableBegin(name, comment));
      if lang == CLanguage {
        outData := outData + "\n// " + comment + "\nconst unsigned char " + name + "[] =\n{\n";
      } else {
        outData := outData + "\n; " + comment + "\n" + name + ":\n";
      }
      trace := trace + [TableBegin(name, comment)];
    }

    /**
     * Appends the sprite comment; `render` formats the sprite number and the
     * offset, which is the current byte count.
     */
    method WriteSpriteHeader(number: int, render: (int, nat) -> string)
      requires Valid()
      modifies this
      ensures Valid() && trace == old(trace) + [SpriteHeader(number)]
      ensures outData == old(outData) + render(number, old(totalBytes))
      ensures totalBytes == old(totalBytes)
    {
      CountedAppend(trace, SpriteHeader(number));
      outData := outData + render(number, totalBytes);
      trace := trace + [SpriteHeader(number)];
    }

    method Write1ByteLine(a: bv8, comment: string, text: string)
      requires Valid()
      modifies this
      ensures Valid() && trace == old(trace) + [ByteLine1(a, comment)]
      ensures outData == old(outData) + text && totalBytes == old(totalBytes) + 1
    {
      CountedAppend(trace, ByteLine1(a, comment));
      outData := outData + text;
      totalBytes := totalBytes + 1;
      trace := trace + [ByteLine1(a, comment)];
    }

    method Write2BytesLine(a: bv8, b: bv8, comment: string, text: string)
      requires Valid()
      modifies this
      ensures Valid() && trace == old(trace) + [ByteLine2(a, b, comment)]
      ensures outData == old(outData) + text && totalBytes == old(totalBytes) + 2
    {
      CountedAppend(trace, ByteLine2(a, b, comment));
      outData := outData + text;
      totalBytes := totalBytes + 2;
      trace := trace + [ByteLine2(a, b, comment)];
    }

    method Write4BytesLine(a: bv8, b: bv8, c: bv8, d: bv8, comment: string, text: string)
      requires Valid()
      modifies this
      ensures Valid() && trace == old(trace) + [ByteLine4(a, b, c, d, comment)]
      ensures outData == old(outData) + text && totalBytes == old(totalBytes) + 4
    {
      CountedAppend(trace, ByteLine4(a, b, c, d, comment));
      outData := outData + text;
      totalBytes := totalBytes + 4;
      trace := trace + [ByteLine4(a, b, c, d, comment)];
    }

    method Write1WordLine(a: bv16, comment: string, text: string)
      requires Valid()
      modifies this
      ensures Valid() && trace == old(trace) + [WordLine1(a, comment)]
      ensures outData == old(outData) + text && totalBytes == old(totalBytes) + 2
    {
      CountedAppend(trace, WordLine1(a, comment));
      outData := outData + text;
      totalBytes := totalBytes + 2;
      trace := trace + [WordLine1(a, comment)];
    }

    method Write2WordsLine(a: bv16, b: bv16, comment: string, text: string)
      requires Valid()
      modifies this
      ensures Valid() && trace == old(trace) + [WordLine2(a, b, comment)]
      ensures outData == old(outData) + text && totalBytes == old(totalBytes) + 4
    {
      CountedAppend(trace, WordLine2(a, b, comment));
      outData := outData + text;
      totalBytes := totalBytes + 4;
      trace := trace + [WordLine2(a, b, comment)];
    }

    method Write1ByteData(data: bv8, text: string)
      requires Valid()
      modifies this
      ensures Valid() && trace == old(trace) + [ByteData(data)]
      ensures outData == old(outData) + text && totalBytes == old(totalBytes) + 1
    {
      CountedAppend(trace, ByteData(data));
      outData := outData + text;
      totalBytes := totalBytes + 1;
      trace := trace + [ByteData(data)];
    }

    method Write8BitsData(data: bv8, text: string)
      requires Valid()
      modifies this
      ensures Valid() && trace == old(trace) + [BitsData(data)]
      ensures outData == old(outData) + text && totalBytes == old(totalBytes) + 1
    {
      CountedAppend(trace, BitsData(data));
      outData := outData + text;
      totalBytes := totalBytes + 1;
      trace := trace + [BitsData(data)];
    }

    method WriteLineBegin()
      requires Valid()
      modifies this
      ensures Valid() && trace == old(trace) + [LineBegin]
      ensures outData == old(outData) + (if lang == CLanguage then "\t" else "\t.db ")
      ensures totalBytes == old(totalBytes)
    {
      CountedAppend(trace, LineBegin);
      outData := outData + (if lang == CLanguage then "\t" else "\t.db ");
      trace := trace + [LineBegin];
    }

    method WriteLineEnd()
      requires Valid()
      modifies this
      ensures Valid() && trace == old(trace) + [LineEnd]
      ensures outData == old(outData) + "\n" && totalBytes == old(totalBytes)
    {
      CountedAppend(trace, LineEnd);
      outData := outData + "\n";
      trace := trace + [LineEnd];
    }

    method WriteTableEnd(comment: string)
      requires Valid()
      modifies this
      ensures Valid() && trace == old(trace) + [TableEnd(comment)]
      ensures lang == CLanguage ==>
        outData == old(outData) + ("};\n" + (if comment != "" then "// " + comment + "\n" else ""))
      ensures lang == Assembler ==>
        outData == old(outData) + (if comment != "" then "; " + comment + "\n" else "")
      ensures totalBytes == old(totalBytes)
    {
      CountedAppend(trace, TableEnd(comment));
      var note := if comment != "" then (if lang == CLanguage then "// " else "; ") + comment + "\n" else "";
      if lang == CLanguage {
        outData := outData + ("};\n" + note);
      } else {
        outData := outData + note;
      }
      trace := trace + [TableEnd(comment)];
    }
  }

  /**
   * The counting probe agrees with the binary exporter: fed the same calls, the
   * dummy exporter's total is the number of bytes the binary exporter wrote.
   */
  lemma ProbeAgreesWithBinary(bin: ExporterBin, probe: ExporterDummy)
    requires bin.Valid() && probe.Valid() && bin.trace == probe.trace
    ensures probe.GetTotalBytes() == bin.GetTotalBytes() == |bin.outData|
  {
  }

  /** Fed the same calls, a text exporter counts exactly the bytes the binary exporter wrote. */
  lemma TextAgreesWithBinary(bin: ExporterBin, text: ExporterText)
    requires bin.Valid() && text.Valid() && bin.trace == text.trace
    ensures text.GetTotalBytes() == |bin.outData|
  {
    EmittedLength(bin.trace);
  }
}
