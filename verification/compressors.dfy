/**
 * The compressor selector of exporter.h (the `Compressor` enum). The C++ enum is a
 * bit-packed tag: the low two bits choose the crop bound, bit 3 marks the per-line
 * variant, bits 4-5 choose the RLE flavour. Here the ten named values form a closed
 * datatype and `Tag` gives each one its bit pattern; every mask test of the program
 * goes through `Tag`.
 */
module Compressors {
  import opened Wrappers

  datatype Compressor =
    | Uncompressed  // COMPRESS_None
    | Crop16 | Crop32 | Crop256
    | CropLine16 | CropLine32 | CropLine256
    | RLE0 | RLE4 | RLE8

  const CROPLINE_MASK: bv8 := 0x08
  const CROP_MASK: bv8 := 0x0F
  const RLE_MASK: bv8 := 0x30

  /** The enum value of a compressor, as the C++ enum declares it. */
  function Tag(c: Compressor): (t: bv8)
    ensures t == 0 <==> c == Uncompressed
    ensures t & RLE_MASK == 0 || t & CROP_MASK == 0
    ensures t & 0xC0 == 0
  {
    match c
    case Uncompressed => 0x00
    case Crop16 => 0x01
    case Crop32 => 0x02
    case Crop256 => 0x03
    case CropLine16 => 0x01 | CROPLINE_MASK
    case CropLine32 => 0x02 | CROPLINE_MASK
    case CropLine256 => 0x03 | CROPLINE_MASK
    case RLE0 => 0x10
    case RLE4 => 0x20
    case RLE8 => 0x30
  }

  /** Reads an enum value back; only the ten declared patterns name a compressor. */
  function FromTag(t: bv8): (r: Option<Compressor>)
    ensures r.Some? ==> Tag(r.value) == t
    ensures r.None? ==> forall c :: Tag(c) != t
  {
    if t == 0x00 then Some(Uncompressed)
    else if t == 0x01 then Some(Crop16)
    else if t == 0x02 then Some(Crop32)
    else if t == 0x03 then Some(Crop256)
    else if t == 0x09 then Some(CropLine16)
    else if t == 0x0A then Some(CropLine32)
    else if t == 0x0B then Some(CropLine256)
    else if t == 0x10 then Some(RLE0)
    else if t == 0x20 then Some(RLE4)
    else if t == 0x30 then Some(RLE8)
    else None
  }

  /** `comp & COMPRESS_Crop_Mask` is nonzero. */
  predicate IsCrop(c: Compressor) {
    Tag(c) & CROP_MASK != 0
  }

  /** `comp & COMPRESS_CropLine_Mask` is nonzero. */
  predicate IsCropLine(c: Compressor) {
    Tag(c) & CROPLINE_MASK != 0
  }

  /** `comp & COMPRESS_RLE_Mask` is nonzero. */
  predicate IsRLE(c: Compressor) {
    Tag(c) & RLE_MASK != 0
  }

  /** The largest sprite side a crop compressor can describe, read from the tag's low two bits. */
  function CropBound(c: Compressor): (b: nat)
    requires IsCrop(c)
    ensures b == 16 <==> c == Crop16 || c == CropLine16
    ensures b == 32 <==> c == Crop32 || c == CropLine32
    ensures b == 256 <==> c == Crop256 || c == CropLine256
  {
    var size := Tag(c) & 0x03;
    if size == 1 then 16 else if size == 2 then 32 else 256
  }

  /** Enum values are unique: reading a tag back gives the compressor that wrote it. */
  lemma TagRoundTrip(c: Compressor)
    ensures FromTag(Tag(c)) == Some(c)
  {
  }

  /** All ten named variants have distinct enum values. */
  lemma {:induction false} TagInjective(a: Compressor, b: Compressor)
    ensures Tag(a) == Tag(b) ==> a == b
  {
    TagRoundTrip(a);
    TagRoundTrip(b);
  }

  /** The crop family carries crop bits and no RLE bits; the RLE family the reverse. */
  lemma MaskFamilies(c: Compressor)
    ensures IsCrop(c) <==> c in {Crop16, Crop32, Crop256, CropLine16, CropLine32, CropLine256}
    ensures IsRLE(c) <==> c in {RLE0, RLE4, RLE8}
    ensures IsCropLine(c) <==> c in {CropLine16, CropLine32, CropLine256}
    ensures !(IsCrop(c) && IsRLE(c))
  {
  }

  /** Each per-line variant is its whole-sprite variant with the CropLine bit set. */
  lemma CropLineIsCropWithMask()
    ensures Tag(CropLine16) == Tag(Crop16) | CROPLINE_MASK
    ensures Tag(CropLine32) == Tag(Crop32) | CROPLINE_MASK
    ensures Tag(CropLine256) == Tag(Crop256) | CROPLINE_MASK
    ensures CROPLINE_MASK & CROP_MASK == CROPLINE_MASK
  {
  }
}
