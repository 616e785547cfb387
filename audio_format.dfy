/**
 * The raw audio sample formats of gst-libs/gst/audio/audio.h and the
 * `formats[]` table of gst-libs/gst/audio/audio.c, with the lookups over it:
 * gst_audio_format_build_integer, gst_audio_format_from_string,
 * gst_audio_format_to_string and gst_audio_format_get_info.
 *
 * A format is a `Format` value; `Value(f)` is its number in the C enum,
 * which is also the index of its row in the table.
 */
module AudioFormat {
  import opened Wrappers

  /** GstAudioFormat, in enum order. */
  datatype Format =
    | Unknown
    | S8 | U8
    | S16LE | S16BE | U16LE | U16BE
    | S24_32LE | S24_32BE | U24_32LE | U24_32BE
    | S32LE | S32BE | U32LE | U32BE
    | S24LE | S24BE | U24LE | U24BE
    | S20LE | S20BE | U20LE | U20BE
    | S18LE | S18BE | U18LE | U18BE
    | F32LE | F32BE | F64LE | F64BE

  /** The integer value of an enum member: UNKNOWN is 0 and every following
      member is one more than the one before it. */
  function Value(f: Format): nat
  {
    match f
    case Unknown => 0
    case S8 => 1
    case U8 => 2
    case S16LE => 3
    case S16BE => 4
    case U16LE => 5
    case U16BE => 6
    case S24_32LE => 7
    case S24_32BE => 8
    case U24_32LE => 9
    case U24_32BE => 10
    case S32LE => 11
    case S32BE => 12
    case U32LE => 13
    case U32BE => 14
    case S24LE => 15
    case S24BE => 16
    case U24LE => 17
    case U24BE => 18
    case S20LE => 19
    case S20BE => 20
    case U20LE => 21
    case U20BE => 22
    case S18LE => 23
    case S18BE => 24
    case U18LE => 25
    case U18BE => 26
    case F32LE => 27
    case F32BE => 28
    case F64LE => 29
    case F64BE => 30
  }

  // ---------------------------------------------------------------------
  // Flags and endianness

  /** GstAudioFormatFlags. A `flags` word is modelled as the set of flags
      whose bits it holds. */
  datatype FormatFlag = FlagInteger | FlagFloat | FlagSigned | FlagComplex

  /** The bit of the `flags` word that stands for a flag. */
  function Bit(flag: FormatFlag): bv32
  {
    match flag
    case FlagInteger => 1 << 0
    case FlagFloat => 1 << 1
    case FlagSigned => 1 << 2
    case FlagComplex => 1 << 4
  }

  /** The `flags` word that holds a set of flags. */
  function FlagWord(flags: set<FormatFlag>): bv32
  {
    (if FlagInteger in flags then Bit(FlagInteger) else 0)
    | (if FlagFloat in flags then Bit(FlagFloat) else 0)
    | (if FlagSigned in flags then Bit(FlagSigned) else 0)
    | (if FlagComplex in flags then Bit(FlagComplex) else 0)
  }

  /** The flags are distinct single bits, so testing a flag's bit in the
      word of a set is asking whether the flag is in the set: the set model
      loses nothing. */
  lemma FlagBits(flags: set<FormatFlag>, flag: FormatFlag, other: FormatFlag)
    ensures Bit(flag) != 0 && Bit(flag) & (Bit(flag) - 1) == 0
    ensures flag != other ==> Bit(flag) & Bit(other) == 0
    ensures (FlagWord(flags) & Bit(flag) != 0) <==> flag in flags
  {
  }

  /** The GST_AUDIO_FORMAT_INFO_IS_* test: is the flag's bit set. */
  predicate HasFlag(flags: set<FormatFlag>, flag: FormatFlag)
  {
    flag in flags
  }

  /** The SINT and UINT shorthands of the table. */
  const SInt: set<FormatFlag> := {FlagInteger, FlagSigned}
  const UInt: set<FormatFlag> := {FlagInteger}

  /** G_LITTLE_ENDIAN and G_BIG_ENDIAN; 0 is "no endianness". */
  const LittleEndian: int := 1234
  const BigEndian: int := 4321

  // ---------------------------------------------------------------------
  // The table

  /** GstAudioFormatInfo without the pack/unpack functions. */
  datatype FormatInfo = FormatInfo(
    format: Format,
    name: string,
    description: string,
    flags: set<FormatFlag>,
    endianness: int,
    width: int,
    depth: int,
    silence: seq<bv8>)


  const Silent0: seq<bv8> := [0, 0, 0, 0, 0, 0, 0, 0]
  const SilentU8: seq<bv8> := [0x80, 0x80, 0x80, 0x80, 0x80, 0x80, 0x80, 0x80]
  const SilentU16LE: seq<bv8> := [0x00, 0x80, 0x00, 0x80, 0x00, 0x80, 0x00, 0x80]
  const SilentU16BE: seq<bv8> := [0x80, 0x00, 0x80, 0x00, 0x80, 0x00, 0x80, 0x00]
  const SilentU24_32LE: seq<bv8> := [0x00, 0x00, 0x80, 0x00, 0x00, 0x00, 0x80, 0x00]
  const SilentU24_32BE: seq<bv8> := [0x00, 0x80, 0x00, 0x00, 0x00, 0x80, 0x00, 0x00]
  const SilentU32LE: seq<bv8> := [0x00, 0x00, 0x00, 0x80, 0x00, 0x00, 0x00, 0x80]
  const SilentU32BE: seq<bv8> := [0x80, 0x00, 0x00, 0x00, 0x80, 0x00, 0x00, 0x00]
  /** The six-byte initialisers; C zero-fills the last two bytes. */
  const SilentU24LE: seq<bv8> := [0x00, 0x00, 0x80, 0x00, 0x00, 0x80, 0, 0]
  const SilentU24BE: seq<bv8> := [0x80, 0x00, 0x00, 0x80, 0x00, 0x00, 0, 0]
  const SilentU20LE: seq<bv8> := [0x00, 0x00, 0x08, 0x00, 0x00, 0x08, 0, 0]
  const SilentU20BE: seq<bv8> := [0x08, 0x00, 0x00, 0x08, 0x00, 0x00, 0, 0]
  const SilentU18LE: seq<bv8> := [0x00, 0x00, 0x02, 0x00, 0x00, 0x02, 0, 0]
  const SilentU18BE: seq<bv8> := [0x02, 0x00, 0x00, 0x02, 0x00, 0x00, 0, 0]

  // The columns of `formats[]`, row by row. The UNKNOWN row has a NULL
  // description, written "", and zero for every field after it.

  /** The `name` column: the enum member's name without its prefix. */
  function Name(f: Format): string
  {
    match f
    case Unknown => "UNKNOWN"
    case S8 => "S8"
    case U8 => "U8"
    case S16LE => "S16LE"
    case S16BE => "S16BE"
    case U16LE => "U16LE"
    case U16BE => "U16BE"
    case S24_32LE => "S24_32LE"
    case S24_32BE => "S24_32BE"
    case U24_32LE => "U24_32LE"
    case U24_32BE => "U24_32BE"
    case S32LE => "S32LE"
    case S32BE => "S32BE"
    case U32LE => "U32LE"
    case U32BE => "U32BE"
    case S24LE => "S24LE"
    case S24BE => "S24BE"
    case U24LE => "U24LE"
    case U24BE => "U24BE"
    case S20LE => "S20LE"
    case S20BE => "S20BE"
    case U20LE => "U20LE"
    case U20BE => "U20BE"
    case S18LE => "S18LE"
    case S18BE => "S18BE"
    case U18LE => "U18LE"
    case U18BE => "U18BE"
    case F32LE => "F32LE"
    case F32BE => "F32BE"
    case F64LE => "F64LE"
    case F64BE => "F64BE"
  }

  /** The `description` column. */
  function Description(f: Format): string
  {
    match f
    case Unknown => ""
    case S8 => "8-bit signed PCM audio"
    case U8 => "8-bit unsigned PCM audio"
    case S16LE => "16-bit signed PCM audio"
    case S16BE => "16-bit signed PCM audio"
    case U16LE => "16-bit unsigned PCM audio"
    case U16BE => "16-bit unsigned PCM audio"
    case S24_32LE => "24-bit signed PCM audio"
    case S24_32BE => "24-bit signed PCM audio"
    case U24_32LE => "24-bit unsigned PCM audio"
    case U24_32BE => "24-bit unsigned PCM audio"
    case S32LE => "32-bit signed PCM audio"
    case S32BE => "32-bit signed PCM audio"
    case U32LE => "32-bit unsigned PCM audio"
    case U32BE => "32-bit unsigned PCM audio"
    case S24LE => "24-bit signed PCM audio"
    case S24BE => "24-bit signed PCM audio"
    case U24LE => "24-bit unsigned PCM audio"
    case U24BE => "24-bit unsigned PCM audio"
    case S20LE => "20-bit signed PCM audio"
    case S20BE => "20-bit signed PCM audio"
    case U20LE => "20-bit unsigned PCM audio"
    case U20BE => "20-bit unsigned PCM audio"
    case S18LE => "18-bit signed PCM audio"
    case S18BE => "18-bit signed PCM audio"
    case U18LE => "18-bit unsigned PCM audio"
    case U18BE => "18-bit unsigned PCM audio"
    case F32LE => "32-bit floating-point audio"
    case F32BE => "32-bit floating-point audio"
    case F64LE => "64-bit floating-point audio"
    case F64BE => "64-bit floating-point audio"
  }

  /** The `flags` column. */
  function Flags(f: Format): set<FormatFlag>
  {
    match f
    case Unknown => {}
    case S8 => SInt
    case U8 => UInt
    case S16LE => SInt
    case S16BE => SInt
    case U16LE => UInt
    case U16BE => UInt
    case S24_32LE => SInt
    case S24_32BE => SInt
    case U24_32LE => UInt
    case U24_32BE => UInt
    case S32LE => SInt
    case S32BE => SInt
    case U32LE => UInt
    case U32BE => UInt
    case S24LE => SInt
    case S24BE => SInt
    case U24LE => UInt
    case U24BE => UInt
    case S20LE => SInt
    case S20BE => SInt
    case U20LE => UInt
    case U20BE => UInt
    case S18LE => SInt
    case S18BE => SInt
    case U18LE => UInt
    case U18BE => UInt
    case F32LE => {FlagFloat}
    case F32BE => {FlagFloat}
    case F64LE => {FlagFloat}
    case F64BE => {FlagFloat}
  }

  /** The `endianness` column. */
  function Endianness(f: Format): int
  {
    match f
    case Unknown => 0
    case S8 => 0
    case U8 => 0
    case S16LE => LittleEndian
    case S16BE => BigEndian
    case U16LE => LittleEndian
    case U16BE => BigEndian
    case S24_32LE => LittleEndian
    case S24_32BE => BigEndian
    case U24_32LE => LittleEndian
    case U24_32BE => BigEndian
    case S32LE => LittleEndian
    case S32BE => BigEndian
    case U32LE => LittleEndian
    case U32BE => BigEndian
    case S24LE => LittleEndian
    case S24BE => BigEndian
    case U24LE => LittleEndian
    case U24BE => BigEndian
    case S20LE => LittleEndian
    case S20BE => BigEndian
    case U20LE => LittleEndian
    case U20BE => BigEndian
    case S18LE => LittleEndian
    case S18BE => BigEndian
    case U18LE => LittleEndian
    case U18BE => BigEndian
    case F32LE => LittleEndian
    case F32BE => BigEndian
    case F64LE => LittleEndian
    case F64BE => BigEndian
  }

  /** The `width` column: bits used by one sample. */
  function Width(f: Format): int
  {
    match f
    case Unknown => 0
    case S8 => 8
    case U8 => 8
    case S16LE => 16
    case S16BE => 16
    case U16LE => 16
    case U16BE => 16
    case S24_32LE => 32
    case S24_32BE => 32
    case U24_32LE => 32
    case U24_32BE => 32
    case S32LE => 32
    case S32BE => 32
    case U32LE => 32
    case U32BE => 32
    case S24LE => 24
    case S24BE => 24
    case U24LE => 24
    case U24BE => 24
    case S20LE => 24
    case S20BE => 24
    case U20LE => 24
    case U20BE => 24
    case S18LE => 24
    case S18BE => 24
    case U18LE => 24
    case U18BE => 24
    case F32LE => 32
    case F32BE => 32
    case F64LE => 64
    case F64BE => 64
  }

  /** The `depth` column: valid bits of one sample. */
  function Depth(f: Format): int
  {
    match f
    case Unknown => 0
    case S8 => 8
    case U8 => 8
    case S16LE => 16
    case S16BE => 16
    case U16LE => 16
    case U16BE => 16
    case S24_32LE => 24
    case S24_32BE => 24
    case U24_32LE => 24
    case U24_32BE => 24
    case S32LE => 32
    case S32BE => 32
    case U32LE => 32
    case U32BE => 32
    case S24LE => 24
    case S24BE => 24
    case U24LE => 24
    case U24BE => 24
    case S20LE => 20
    case S20BE => 20
    case U20LE => 20
    case U20BE => 20
    case S18LE => 18
    case S18BE => 18
    case U18LE => 18
    case U18BE => 18
    case F32LE => 32
    case F32BE => 32
    case F64LE => 64
    case F64BE => 64
  }

  /** The `silence` column: 8 bytes holding whole silent samples. */
  function Silence(f: Format): seq<bv8>
  {
    match f
    case Unknown => Silent0
    case S8 => Silent0
    case U8 => SilentU8
    case S16LE => Silent0
    case S16BE => Silent0
    case U16LE => SilentU16LE
    case U16BE => SilentU16BE
    case S24_32LE => Silent0
    case S24_32BE => Silent0
    case U24_32LE => SilentU24_32LE
    case U24_32BE => SilentU24_32BE
    case S32LE => Silent0
    case S32BE => Silent0
    case U32LE => SilentU32LE
    case U32BE => SilentU32BE
    case S24LE => Silent0
    case S24BE => Silent0
    case U24LE => SilentU24LE
    case U24BE => SilentU24BE
    case S20LE => Silent0
    case S20BE => Silent0
    case U20LE => SilentU20LE
    case U20BE => SilentU20BE
    case S18LE => Silent0
    case S18BE => Silent0
    case U18LE => SilentU18LE
    case U18BE => SilentU18BE
    case F32LE => Silent0
    case F32BE => Silent0
    case F64LE => Silent0
    case F64BE => Silent0
  }

  /** The row of `formats[]` that describes `f`. */
  function Info(f: Format): FormatInfo
  {
    FormatInfo(f, Name(f), Description(f), Flags(f), Endianness(f), Width(f), Depth(f), Silence(f))
  }

  /** The number of rows of `formats[]`. */
  const Count: nat := 31

  /** The format of row `i` of `formats[]`. */
  function FormatOf(i: nat): Format
    requires i < Count
  {
    if i == 0 then Unknown
    else if i == 1 then S8
    else if i == 2 then U8
    else if i == 3 then S16LE
    else if i == 4 then S16BE
    else if i == 5 then U16LE
    else if i == 6 then U16BE
    else if i == 7 then S24_32LE
    else if i == 8 then S24_32BE
    else if i == 9 then U24_32LE
    else if i == 10 then U24_32BE
    else if i == 11 then S32LE
    else if i == 12 then S32BE
    else if i == 13 then U32LE
    else if i == 14 then U32BE
    else if i == 15 then S24LE
    else if i == 16 then S24BE
    else if i == 17 then U24LE
    else if i == 18 then U24BE
    else if i == 19 then S20LE
    else if i == 20 then S20BE
    else if i == 21 then U20LE
    else if i == 22 then U20BE
    else if i == 23 then S18LE
    else if i == 24 then S18BE
    else if i == 25 then U18LE
    else if i == 26 then U18BE
    else if i == 27 then F32LE
    else if i == 28 then F32BE
    else if i == 29 then F64LE
    else F64BE
  }

  /** Row `i` of `formats[]`. */
  function Row(i: nat): FormatInfo
    requires i < Count
  {
    Info(FormatOf(i))
  }

  /** Row `Value(f)` of the table describes `f`: the rows are in enum order,
      which `formats[format]` relies on. */
  lemma TableOrder(f: Format)
    ensures Value(f) < Count && FormatOf(Value(f)) == f
  {
    match f
    case Unknown =>
    case S8 =>
    case U8 =>
    case S16LE =>
    case S16BE =>
    case U16LE =>
    case U16BE =>
    case S24_32LE =>
    case S24_32BE =>
    case U24_32LE =>
    case U24_32BE =>
    case S32LE =>
    case S32BE =>
    case U32LE =>
    case U32BE =>
    case S24LE =>
    case S24BE =>
    case U24LE =>
    case U24BE =>
    case S20LE =>
    case S20BE =>
    case U20LE =>
    case U20BE =>
    case S18LE =>
    case S18BE =>
    case U18LE =>
    case U18BE =>
    case F32LE =>
    case F32BE =>
    case F64LE =>
    case F64BE =>
  }

  /** Row `i` of the table is the format whose enum value is `i`. */
  lemma RowValue(i: nat)
    requires i < Count
    ensures Value(FormatOf(i)) == i
  {
  }

  // ---------------------------------------------------------------------
  // Lookups by enum value

  /** gst_audio_format_to_string: NULL for UNKNOWN and for values past the
      table, the row's name otherwise. */
  function ToString(v: int): (r: Option<string>)
    ensures r.Some? <==> 0 < v < Count
    ensures r.Some? ==> Value(KeyedFormat(r.value)) == v
  {
    if v == Value(Unknown) then None
    else if v < 0 || v >= Count then None
    else
      NameKeyInverse(FormatOf(v));
      RowValue(v);
      Some(Name(FormatOf(v)))
  }

  /** gst_audio_format_get_info: NULL for UNKNOWN and for values past the
      table, `&formats[format]` otherwise. */
  function GetInfo(v: int): (r: Option<FormatInfo>)
    ensures r.Some? <==> 0 < v < Count
    ensures r.Some? ==> Value(r.value.format) == v && r.value == Info(r.value.format)
  {
    if v == Value(Unknown) then None
    else if v < 0 || v >= Count then None
    else
      RowValue(v);
      Some(Row(v))
  }

  /** The lookups by enum value succeed exactly on the values of known
      formats, and then find the format's own row. */
  lemma LookupByValue(f: Format, v: int)
    ensures GetInfo(v).Some? <==> 0 < v < Count
    ensures ToString(v).Some? <==> 0 < v < Count
    ensures Value(f) == v && f != Unknown ==> GetInfo(v) == Some(Info(f)) && ToString(v) == Some(Name(f))
  {
    TableOrder(f);
  }

  // ---------------------------------------------------------------------
  // gst_audio_format_from_string

  /** What from_string may answer for `s`: a format named `s`, or UNKNOWN
      when no row has that name. */
  predicate NameLookup(s: string, f: Format)
  {
    Name(f) == s || (f == Unknown && forall g :: Name(g) != s)
  }

  /** gst_audio_format_from_string */
  method FromString(s: string) returns (f: Format)
    ensures NameLookup(s, f)
  {
    var i := 0;
    while i < Count
      invariant 0 <= i <= Count
      invariant forall m :: 0 <= m < i ==> Name(FormatOf(m)) != s
    {
      if Name(FormatOf(i)) == s {
        return FormatOf(i);
      }
      i := i + 1;
    }
    forall g
      ensures Name(g) != s
    {
      TableOrder(g);
    }
    return Unknown;
  }

  /** The format whose table name is `s`, read off its length and four of
      its letters, which are enough to tell the names apart. */
  function KeyedFormat(s: string): Format
  {
    if |s| == 7 then Unknown
    else if |s| == 2 then
      if s[0] == 'S' then S8
      else if s[0] == 'U' then U8
      else Unknown
    else if |s| == 5 then
      if s[0] == 'S' then
        if s[1] == '1' then
          if s[2] == '6' then
            if s[|s| - 2] == 'L' then S16LE
            else if s[|s| - 2] == 'B' then S16BE
            else Unknown
          else if s[2] == '8' then
            if s[|s| - 2] == 'L' then S18LE
            else if s[|s| - 2] == 'B' then S18BE
            else Unknown
          else Unknown
        else if s[1] == '3' then
          if s[2] == '2' then
            if s[|s| - 2] == 'L' then S32LE
            else if s[|s| - 2] == 'B' then S32BE
            else Unknown
          else Unknown
        else if s[1] == '2' then
          if s[2] == '4' then
            if s[|s| - 2] == 'L' then S24LE
            else if s[|s| - 2] == 'B' then S24BE
            else Unknown
          else if s[2] == '0' then
            if s[|s| - 2] == 'L' then S20LE
            else if s[|s| - 2] == 'B' then S20BE
            else Unknown
          else Unknown
        else Unknown
      else if s[0] == 'U' then
        if s[1] == '1' then
          if s[2] == '6' then
            if s[|s| - 2] == 'L' then U16LE
            else if s[|s| - 2] == 'B' then U16BE
            else Unknown
          else if s[2] == '8' then
            if s[|s| - 2] == 'L' then U18LE
            else if s[|s| - 2] == 'B' then U18BE
            else Unknown
          else Unknown
        else if s[1] == '3' then
          if s[2] == '2' then
            if s[|s| - 2] == 'L' then U32LE
            else if s[|s| - 2] == 'B' then U32BE
            else Unknown
          else Unknown
        else if s[1] == '2' then
          if s[2] == '4' then
            if s[|s| - 2] == 'L' then U24LE
            else if s[|s| - 2] == 'B' then U24BE
            else Unknown
          else if s[2] == '0' then
            if s[|s| - 2] == 'L' then U20LE
            else if s[|s| - 2] == 'B' then U20BE
            else Unknown
          else Unknown
        else Unknown
      else if s[0] == 'F' then
        if s[1] == '3' then
          if s[2] == '2' then
            if s[|s| - 2] == 'L' then F32LE
            else if s[|s| - 2] == 'B' then F32BE
            else Unknown
          else Unknown
        else if s[1] == '6' then
          if s[2] == '4' then
            if s[|s| - 2] == 'L' then F64LE
            else if s[|s| - 2] == 'B' then F64BE
            else Unknown
          else Unknown
        else Unknown
      else Unknown
    else if |s| == 8 then
      if s[0] == 'S' then
        if s[1] == '2' then
          if s[2] == '4' then
            if s[|s| - 2] == 'L' then S24_32LE
            else if s[|s| - 2] == 'B' then S24_32BE
            else Unknown
          else Unknown
        else Unknown
      else if s[0] == 'U' then
        if s[1] == '2' then
          if s[2] == '4' then
            if s[|s| - 2] == 'L' then U24_32LE
            else if s[|s| - 2] == 'B' then U24_32BE
            else Unknown
          else Unknown
        else Unknown
      else Unknown
    else Unknown
  }

  lemma NameKeyInverse(f: Format)
    ensures KeyedFormat(Name(f)) == f
  {
    match f
    case Unknown =>
    case S8 =>
    case U8 =>
    case S16LE =>
    case S16BE =>
    case U16LE =>
    case U16BE =>
    case S24_32LE =>
    case S24_32BE =>
    case U24_32LE =>
    case U24_32BE =>
    case S32LE =>
    case S32BE =>
    case U32LE =>
    case U32BE =>
    case S24LE =>
    case S24BE =>
    case U24LE =>
    case U24BE =>
    case S20LE =>
    case S20BE =>
    case U20LE =>
    case U20BE =>
    case S18LE =>
    case S18BE =>
    case U18LE =>
    case U18BE =>
    case F32LE =>
    case F32BE =>
    case F64LE =>
    case F64BE =>
  }

  /** No two rows share a name. */
  lemma NameInjective(f: Format, g: Format)
    requires Name(f) == Name(g)
    ensures f == g
  {
    NameKeyInverse(f);
    NameKeyInverse(g);
  }

  /** from_string inverts to_string: on the name of a known format, the
      only answer NameLookup allows is that format. */
  lemma StringRoundTrip(f: Format, g: Format)
    requires f != Unknown && ToString(Value(f)).Some?
    requires NameLookup(ToString(Value(f)).value, g)
    ensures g == f
  {
    LookupByValue(f, Value(f));
    if Name(g) == Name(f) {
      NameInjective(f, g);
    }
  }

  // ---------------------------------------------------------------------
  // gst_audio_format_build_integer

  /** The tests of the loop of gst_audio_format_build_integer: an integer
      row with the requested width and depth, the requested endianness when
      the row has one, and a signed row when `sign` is set. With `strict`,
      also an unsigned row when `sign` is not set. */
  predicate Accepts(f: Format, sign: bool, endianness: int, width: int, depth: int, strict: bool)
  {
    && HasFlag(Flags(f), FlagInteger)
    && width == Width(f)
    && depth == Depth(f)
    && (Endianness(f) == 0 || Endianness(f) == endianness)
    && (sign ==> HasFlag(Flags(f), FlagSigned))
    && (strict && !sign ==> !HasFlag(Flags(f), FlagSigned))
  }

  /** What build_integer may answer: the first accepting row in table
      order, or UNKNOWN when no row accepts. */
  predicate IntegerLookup(sign: bool, endianness: int, width: int, depth: int, strict: bool, f: Format)
  {
    if f == Unknown then forall g :: !Accepts(g, sign, endianness, width, depth, strict)
    else Accepts(f, sign, endianness, width, depth, strict)
         && forall g :: Value(g) < Value(f) ==> !Accepts(g, sign, endianness, width, depth, strict)
  }

  /** gst_audio_format_build_integer as written: `sign == FALSE` accepts
      signed rows too. */
  method BuildIntegerAsWritten(sign: bool, endianness: int, width: int, depth: int) returns (f: Format)
    ensures IntegerLookup(sign, endianness, width, depth, false, f)
  {
    var i := 0;
    while i < Count
      invariant 0 <= i <= Count
      invariant forall m :: 0 <= m < i ==> !Accepts(FormatOf(m), sign, endianness, width, depth, false)
    {
      var e := FormatOf(i);
      if !HasFlag(Flags(e), FlagInteger) || width != Width(e) || depth != Depth(e) {
      } else if Endianness(e) != 0 && Endianness(e) != endianness {
      } else if sign && !HasFlag(Flags(e), FlagSigned) {
      } else {
        EarlierRowsReject(sign, endianness, width, depth, false, i);
        return e;
      }
      i := i + 1;
    }
    NoRowAccepts(sign, endianness, width, depth, false);
    return Unknown;
  }

  /** gst_audio_format_build_integer with the sign test in both directions. */
  method BuildInteger(sign: bool, endianness: int, width: int, depth: int) returns (f: Format)
    ensures IntegerLookup(sign, endianness, width, depth, true, f)
  {
    var i := 0;
    while i < Count
      invariant 0 <= i <= Count
      invariant forall m :: 0 <= m < i ==> !Accepts(FormatOf(m), sign, endianness, width, depth, true)
    {
      var e := FormatOf(i);
      if !HasFlag(Flags(e), FlagInteger) || width != Width(e) || depth != Depth(e) {
      } else if Endianness(e) != 0 && Endianness(e) != endianness {
      } else if sign != HasFlag(Flags(e), FlagSigned) {
      } else {
        EarlierRowsReject(sign, endianness, width, depth, true, i);
        return e;
      }
      i := i + 1;
    }
    NoRowAccepts(sign, endianness, width, depth, true);
    return Unknown;
  }

  /** Rows before row `i` rejecting means every format with a smaller enum
      value rejects. */
  lemma EarlierRowsReject(sign: bool, endianness: int, width: int, depth: int, strict: bool, i: nat)
    requires i < Count
    requires forall m :: 0 <= m < i ==> !Accepts(FormatOf(m), sign, endianness, width, depth, strict)
    ensures Value(FormatOf(i)) == i
    ensures forall g :: Value(g) < i ==> !Accepts(g, sign, endianness, width, depth, strict)
  {
    RowValue(i);
    forall g | Value(g) < i
      ensures !Accepts(g, sign, endianness, width, depth, strict)
    {
      TableOrder(g);
    }
  }

  lemma NoRowAccepts(sign: bool, endianness: int, width: int, depth: int, strict: bool)
    requires forall m :: 0 <= m < Count ==> !Accepts(FormatOf(m), sign, endianness, width, depth, strict)
    ensures forall g :: !Accepts(g, sign, endianness, width, depth, strict)
  {
    forall g
      ensures !Accepts(g, sign, endianness, width, depth, strict)
    {
      TableOrder(g);
    }
  }

  /** As written, a request for unsigned 16-bit little-endian samples can
      only be answered with the signed format S16LE, whose row comes first. */
  lemma UnsignedRequestGivesSigned(f: Format)
    requires IntegerLookup(false, LittleEndian, 16, 16, false, f)
    ensures f == S16LE && HasFlag(Flags(f), FlagSigned)
  {
    assert Accepts(S16LE, false, LittleEndian, 16, 16, false);
    LittleSixteen(f);
  }

  /** The rows build_integer accepts for (FALSE, LITTLE_ENDIAN, 16, 16). */
  lemma LittleSixteen(f: Format)
    requires Accepts(f, false, LittleEndian, 16, 16, false)
    ensures f == S16LE || f == U16LE
  {
    match f
    case Unknown =>
    case S8 =>
    case U8 =>
    case S16LE =>
    case S16BE =>
    case U16LE =>
    case U16BE =>
    case S24_32LE =>
    case S24_32BE =>
    case U24_32LE =>
    case U24_32BE =>
    case S32LE =>
    case S32BE =>
    case U32LE =>
    case U32BE =>
    case S24LE =>
    case S24BE =>
    case U24LE =>
    case U24BE =>
    case S20LE =>
    case S20BE =>
    case U20LE =>
    case U20BE =>
    case S18LE =>
    case S18BE =>
    case U18LE =>
    case U18BE =>
    case F32LE =>
    case F32BE =>
    case F64LE =>
    case F64BE =>
  }

  /** The integer format with the given traits, read off depth, width, sign
      and (for samples wider than a byte) endianness. */
  function TraitsFormat(signed: bool, endianness: int, width: int, depth: int): Format
  {
    if depth == 8 then (if signed then S8 else U8)
    else if depth == 16 then
      if signed then (if endianness == LittleEndian then S16LE else S16BE)
      else (if endianness == LittleEndian then U16LE else U16BE)
    else if depth == 24 && width == 32 then
      if signed then (if endianness == LittleEndian then S24_32LE else S24_32BE)
      else (if endianness == LittleEndian then U24_32LE else U24_32BE)
    else if depth == 32 then
      if signed then (if endianness == LittleEndian then S32LE else S32BE)
      else (if endianness == LittleEndian then U32LE else U32BE)
    else if depth == 24 then
      if signed then (if endianness == LittleEndian then S24LE else S24BE)
      else (if endianness == LittleEndian then U24LE else U24BE)
    else if depth == 20 then
      if signed then (if endianness == LittleEndian then S20LE else S20BE)
      else (if endianness == LittleEndian then U20LE else U20BE)
    else if depth == 18 then
      if signed then (if endianness == LittleEndian then S18LE else S18BE)
      else (if endianness == LittleEndian then U18LE else U18BE)
    else Unknown
  }

  /** Every integer row is recovered from its traits, and only the one-byte
      rows leave the endianness unset. */
  lemma TraitsKeyInverse(f: Format)
    requires HasFlag(Flags(f), FlagInteger)
    ensures TraitsFormat(HasFlag(Flags(f), FlagSigned), Endianness(f), Width(f), Depth(f)) == f
    ensures Endianness(f) == 0 ==> Depth(f) == 8
  {
    if Endianness(f) == BigEndian {
      TraitsKeyBig(f);
    } else {
      TraitsKeyLittle(f);
    }
  }

  /** TraitsKeyInverse for the one-byte and little-endian rows. */
  lemma TraitsKeyLittle(f: Format)
    requires HasFlag(Flags(f), FlagInteger) && Endianness(f) != BigEndian
    ensures TraitsFormat(HasFlag(Flags(f), FlagSigned), Endianness(f), Width(f), Depth(f)) == f
    ensures Endianness(f) == 0 ==> Depth(f) == 8
  {
    match f
    case Unknown =>
    case S8 =>
    case U8 =>
    case S16LE =>
    case S16BE =>
    case U16LE =>
    case U16BE =>
    case S24_32LE =>
    case S24_32BE =>
    case U24_32LE =>
    case U24_32BE =>
    case S32LE =>
    case S32BE =>
    case U32LE =>
    case U32BE =>
    case S24LE =>
    case S24BE =>
    case U24LE =>
    case U24BE =>
    case S20LE =>
    case S20BE =>
    case U20LE =>
    case U20BE =>
    case S18LE =>
    case S18BE =>
    case U18LE =>
    case U18BE =>
    case F32LE =>
    case F32BE =>
    case F64LE =>
    case F64BE =>
  }

  /** TraitsKeyInverse for the big-endian rows. */
  lemma TraitsKeyBig(f: Format)
    requires HasFlag(Flags(f), FlagInteger) && Endianness(f) == BigEndian
    ensures TraitsFormat(HasFlag(Flags(f), FlagSigned), Endianness(f), Width(f), Depth(f)) == f
  {
    match f
    case Unknown =>
    case S8 =>
    case U8 =>
    case S16LE =>
    case S16BE =>
    case U16LE =>
    case U16BE =>
    case S24_32LE =>
    case S24_32BE =>
    case U24_32LE =>
    case U24_32BE =>
    case S32LE =>
    case S32BE =>
    case U32LE =>
    case U32BE =>
    case S24LE =>
    case S24BE =>
    case U24LE =>
    case U24BE =>
    case S20LE =>
    case S20BE =>
    case U20LE =>
    case U20BE =>
    case S18LE =>
    case S18BE =>
    case U18LE =>
    case U18BE =>
    case F32LE =>
    case F32BE =>
    case F64LE =>
    case F64BE =>
  }

  /** Two integer rows that agree on sign, width and depth, and whose
      endianness is compatible in build_integer's sense, are the same row. */
  lemma TraitsInjective(f: Format, g: Format)
    requires HasFlag(Flags(f), FlagInteger)
    requires Accepts(g, HasFlag(Flags(f), FlagSigned), Endianness(f), Width(f), Depth(f), true)
    ensures f == g
  {
    TraitsKeyInverse(f);
    TraitsKeyInverse(g);
  }

  /** With the strict sign test, build_integer inverts the table: the traits
      of every integer format give back that format. */
  lemma BuildIntegerInverse(f: Format, g: Format)
    requires HasFlag(Flags(f), FlagInteger)
    requires IntegerLookup(HasFlag(Flags(f), FlagSigned), Endianness(f), Width(f), Depth(f), true, g)
    ensures g == f
  {
    if g != Unknown {
      TraitsInjective(f, g);
    } else {
      assert Accepts(f, HasFlag(Flags(f), FlagSigned), Endianness(f), Width(f), Depth(f), true);
    }
  }

  // ---------------------------------------------------------------------
  // Native-endian aliases

  /** G_BYTE_ORDER of the host the library is built for. */
  datatype ByteOrder = HostLittle | HostBig

  /** The G_LITTLE_ENDIAN / G_BIG_ENDIAN value naming a host byte order. */
  function HostEndianness(host: ByteOrder): int
  {
    if host == HostLittle then LittleEndian else BigEndian
  }

  /** The native-endian names GST_AUDIO_FORMAT_S16, ..., GST_AUDIO_FORMAT_F64. */
  datatype NativeFormat =
    | S16 | U16 | S24_32 | U24_32 | S32 | U32
    | S24 | U24 | S20 | U20 | S18 | U18 | F32 | F64

  /** The member an alias stands for on a little-endian host. */
  function LittleMember(n: NativeFormat): Format
  {
    match n
    case S16 => S16LE
    case U16 => U16LE
    case S24_32 => S24_32LE
    case U24_32 => U24_32LE
    case S32 => S32LE
    case U32 => U32LE
    case S24 => S24LE
    case U24 => U24LE
    case S20 => S20LE
    case U20 => U20LE
    case S18 => S18LE
    case U18 => U18LE
    case F32 => F32LE
    case F64 => F64LE
  }

  /** The member an alias stands for on a big-endian host. */
  function BigMember(n: NativeFormat): Format
  {
    match n
    case S16 => S16BE
    case U16 => U16BE
    case S24_32 => S24_32BE
    case U24_32 => U24_32BE
    case S32 => S32BE
    case U32 => U32BE
    case S24 => S24BE
    case U24 => U24BE
    case S20 => S20BE
    case U20 => U20BE
    case S18 => S18BE
    case U18 => U18BE
    case F32 => F32BE
    case F64 => F64BE
  }

  /** The enum member an alias stands for on a host (_GST_AUDIO_FORMAT_NE). */
  function Native(n: NativeFormat, host: ByteOrder): Format
  {
    if host == HostLittle then LittleMember(n) else BigMember(n)
  }

  /** The alias's own name, to which the macro pastes "LE" or "BE". */
  function Stem(n: NativeFormat): string
  {
    match n
    case S16 => "S16"
    case U16 => "U16"
    case S24_32 => "S24_32"
    case U24_32 => "U24_32"
    case S32 => "S32"
    case U32 => "U32"
    case S24 => "S24"
    case U24 => "U24"
    case S20 => "S20"
    case U20 => "U20"
    case S18 => "S18"
    case U18 => "U18"
    case F32 => "F32"
    case F64 => "F64"
  }

  /** An alias stands for the member whose name is the alias's own name
      followed by the host's byte order. */
  lemma NativeName(n: NativeFormat, host: ByteOrder)
    ensures Name(Native(n, host)) == Stem(n) + (if host == HostLittle then "LE" else "BE")
  {
    if host == HostLittle {
      LittleName(n);
    } else {
      BigName(n);
    }
  }

  lemma LittleName(n: NativeFormat)
    ensures Name(LittleMember(n)) == Stem(n) + "LE"
  {
    match n
    case S16 =>
    case U16 =>
    case S24_32 =>
    case U24_32 =>
    case S32 =>
    case U32 =>
    case S24 =>
    case U24 =>
    case S20 =>
    case U20 =>
    case S18 =>
    case U18 =>
    case F32 =>
    case F64 =>
  }

  lemma BigName(n: NativeFormat)
    ensures Name(BigMember(n)) == Stem(n) + "BE"
  {
    match n
    case S16 =>
    case U16 =>
    case S24_32 =>
    case U24_32 =>
    case S32 =>
    case U32 =>
    case S24 =>
    case U24 =>
    case S20 =>
    case U20 =>
    case S18 =>
    case U18 =>
    case F32 =>
    case F64 =>
  }

  /** An alias has the host's endianness. */
  lemma NativeEndianness(n: NativeFormat, host: ByteOrder)
    ensures Endianness(Native(n, host)) == HostEndianness(host)
  {
    match n
    case S16 =>
    case U16 =>
    case S24_32 =>
    case U24_32 =>
    case S32 =>
    case U32 =>
    case S24 =>
    case U24 =>
    case S20 =>
    case U20 =>
    case S18 =>
    case U18 =>
    case F32 =>
    case F64 =>
  }

  /** The two members an alias may stand for store samples of the same
      width and depth ... */
  lemma NativeSampleSize(n: NativeFormat)
    ensures Width(LittleMember(n)) == Width(BigMember(n))
    ensures Depth(LittleMember(n)) == Depth(BigMember(n))
  {
    match n
    case S16 =>
    case U16 =>
    case S24_32 =>
    case U24_32 =>
    case S32 =>
    case U32 =>
    case S24 =>
    case U24 =>
    case S20 =>
    case U20 =>
    case S18 =>
    case U18 =>
    case F32 =>
    case F64 =>
  }

  /** ... and carry the same flags: they differ only in byte order. */
  lemma NativeFlags(n: NativeFormat)
    ensures Flags(LittleMember(n)) == Flags(BigMember(n))
  {
    match n
    case S16 =>
    case U16 =>
    case S24_32 =>
    case U24_32 =>
    case S32 =>
    case U32 =>
    case S24 =>
    case U24 =>
    case S20 =>
    case U20 =>
    case S18 =>
    case U18 =>
    case F32 =>
    case F64 =>
  }


  // ---------------------------------------------------------------------
  // Shape of the rows

  /** GST_AUDIO_INFO_BPS: bytes per sample, `depth >> 3`. Depths are never
      negative, so the shift is a division by 8. */
  function Bps(f: Format): int
  {
    Depth(f) / 8
  }

  /** BPS counts the bytes of the valid bits, not of the stored sample: it
      covers the whole sample exactly when width and depth agree. */
  lemma BpsAgainstWidth(f: Format)
    ensures Bps(f) * 8 <= Width(f)
    ensures Bps(f) * 8 == Width(f) <==> Width(f) == Depth(f)
  {
    match f
    case Unknown =>
    case S8 =>
    case U8 =>
    case S16LE =>
    case S16BE =>
    case U16LE =>
    case U16BE =>
    case S24_32LE =>
    case S24_32BE =>
    case U24_32LE =>
    case U24_32BE =>
    case S32LE =>
    case S32BE =>
    case U32LE =>
    case U32BE =>
    case S24LE =>
    case S24BE =>
    case U24LE =>
    case U24BE =>
    case S20LE =>
    case S20BE =>
    case U20LE =>
    case U20BE =>
    case S18LE =>
    case S18BE =>
    case U18LE =>
    case U18BE =>
    case F32LE =>
    case F32BE =>
    case F64LE =>
    case F64BE =>
  }

  /** Every known row is either integer or float, never complex; floats are
      not flagged signed; and the signed flag agrees with the name's first
      letter. */
  lemma RowFlags(f: Format)
    requires f != Unknown
    ensures HasFlag(Flags(f), FlagInteger) != HasFlag(Flags(f), FlagFloat)
    ensures !HasFlag(Flags(f), FlagComplex)
    ensures HasFlag(Flags(f), FlagFloat) ==> !HasFlag(Flags(f), FlagSigned)
    ensures HasFlag(Flags(f), FlagSigned) <==> Name(f)[0] == 'S'
  {
    match f
    case Unknown =>
    case S8 =>
    case U8 =>
    case S16LE =>
    case S16BE =>
    case U16LE =>
    case U16BE =>
    case S24_32LE =>
    case S24_32BE =>
    case U24_32LE =>
    case U24_32BE =>
    case S32LE =>
    case S32BE =>
    case U32LE =>
    case U32BE =>
    case S24LE =>
    case S24BE =>
    case U24LE =>
    case U24BE =>
    case S20LE =>
    case S20BE =>
    case U20LE =>
    case U20BE =>
    case S18LE =>
    case S18BE =>
    case U18LE =>
    case U18BE =>
    case F32LE =>
    case F32BE =>
    case F64LE =>
    case F64BE =>
  }

  /** Every known row stores whole bytes, holds at least one valid bit, has
      a silent sample that fits its silence bytes, and has no endianness
      exactly when its samples are one byte wide. */
  lemma RowSizes(f: Format)
    requires f != Unknown
    ensures Endianness(f) == 0 <==> Width(f) == 8
    ensures Width(f) % 8 == 0 && 0 < Depth(f) <= Width(f) <= 8 * |Silence(f)|
  {
    match f
    case Unknown =>
    case S8 =>
    case U8 =>
    case S16LE =>
    case S16BE =>
    case U16LE =>
    case U16BE =>
    case S24_32LE =>
    case S24_32BE =>
    case U24_32LE =>
    case U24_32BE =>
    case S32LE =>
    case S32BE =>
    case U32LE =>
    case U32BE =>
    case S24LE =>
    case S24BE =>
    case U24LE =>
    case U24BE =>
    case S20LE =>
    case S20BE =>
    case U20LE =>
    case U20BE =>
    case S18LE =>
    case S18BE =>
    case U18LE =>
    case U18BE =>
    case F32LE =>
    case F32BE =>
    case F64LE =>
    case F64BE =>
  }

  // ---------------------------------------------------------------------
  // Silence

  /** Signed and float rows are silent at zero: their silence bytes are all
      zero. */
  lemma SignedSilenceIsZero(f: Format)
    requires HasFlag(Flags(f), FlagSigned) || HasFlag(Flags(f), FlagFloat)
    ensures forall k :: 0 <= k < |Silence(f)| ==> Silence(f)[k] == 0
  {
    match f
    case Unknown =>
    case S8 =>
    case U8 =>
    case S16LE =>
    case S16BE =>
    case U16LE =>
    case U16BE =>
    case S24_32LE =>
    case S24_32BE =>
    case U24_32LE =>
    case U24_32BE =>
    case S32LE =>
    case S32BE =>
    case U32LE =>
    case U32BE =>
    case S24LE =>
    case S24BE =>
    case U24LE =>
    case U24BE =>
    case S20LE =>
    case S20BE =>
    case U20LE =>
    case U20BE =>
    case S18LE =>
    case S18BE =>
    case U18LE =>
    case U18BE =>
    case F32LE =>
    case F32BE =>
    case F64LE =>
    case F64BE =>
  }
}
