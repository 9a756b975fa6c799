/**
 * `MaxCompressorStreamFactory`: the XZ preset derived from the compression
 * ratio, and the mapping between a file name and its compressed name. The
 * per-format suffix tables are those of Apache Commons Compress's
 * `BZip2Utils`, `GzipUtils`, `LZMAUtils` and `XZUtils` (its `FileNameUtil`).
 * The codecs themselves are an abstract pair of functions.
 */
module Compression {
  import opened Common

  const BZIP2: string := "bzip2"
  const GZIP: string := "gz"
  const LZMA: string := "lzma"
  const XZ: string := "xz"

  /** The factory's default compression ratio. */
  const DefaultRatio: real := 1.0

  /** `Math.round` of a non-NaN value: the floor of x + 1/2. */
  function Round(x: real): int
  {
    (x + 0.5).Floor
  }

  /** The XZ preset for a ratio: `max(1, round(ratio * 9))`. */
  function XzLevel(ratio: real): (level: int)
    ensures level >= 1
    ensures level >= Round(ratio * 9.0)
    ensures Round(ratio * 9.0) >= 1 ==> level == Round(ratio * 9.0)
    ensures Round(ratio * 9.0) < 1 ==> level == 1
  {
    var r := Round(ratio * 9.0);
    if r < 1 then 1 else r
  }

  /** The default ratio gives the strongest standard preset, 9; nothing caps larger ratios. */
  lemma XzLevelValues()
    ensures XzLevel(DefaultRatio) == 9
    ensures XzLevel(0.0) == 1
    ensures XzLevel(0.5) == 5
    ensures XzLevel(2.0) == 18
  {
    assert (9.0 + 0.5).Floor == 9;
    assert (0.0 + 0.5).Floor == 0;
    assert (4.5 + 0.5).Floor == 5;
    assert (18.0 + 0.5).Floor == 18;
  }

  /**
   * A format's suffix table: pairs (compressed suffix, uncompressed suffix)
   * in the library's insertion order, and the default compressed extension.
   */
  datatype SuffixTable = SuffixTable(entries: seq<(string, string)>, defaultExtension: string)

  const XzTable := SuffixTable([(".txz", ".tar"), (".xz", ""), ("-xz", "")], ".xz")
  const GzipTable := SuffixTable(
    [(".tgz", ".tar"), (".taz", ".tar"), (".svgz", ".svg"), (".cpgz", ".cpio"), (".wmz", ".wmf"),
     (".emz", ".emf"), (".gz", ""), (".z", ""), ("-gz", ""), ("-z", ""), ("_z", "")], ".gz")
  const Bzip2Table := SuffixTable(
    [(".tar.bz2", ".tar"), (".tbz2", ".tar"), (".tbz", ".tar"), (".bz2", ""), (".bz", "")], ".bz2")
  const LzmaTable := SuffixTable([(".lzma", ""), ("-lzma", "")], ".lzma")

  /** The uncompressed suffix for a compressed suffix (the first entry with that key). */
  function UncompressSuffix(entries: seq<(string, string)>, suffix: string): (r: Option<string>)
    ensures r.Some? ==> exists k :: 0 <= k < |entries| && entries[k] == (suffix, r.value)
  {
    if entries == [] then None
    else if entries[0].0 == suffix then Some(entries[0].1)
    else UncompressSuffix(entries[1..], suffix)
  }

  /** The compressed suffix for a non-empty uncompressed suffix (the first entry mapping to it). */
  function CompressSuffix(entries: seq<(string, string)>, suffix: string): (r: Option<string>)
    ensures r.Some? ==> suffix != [] && exists k :: 0 <= k < |entries| && entries[k] == (r.value, suffix)
  {
    if entries == [] || suffix == [] then None
    else if entries[0].1 == suffix then Some(entries[0].0)
    else CompressSuffix(entries[1..], suffix)
  }

  /** The table maps `suffix` (as a compressed suffix when `uncompress`, else as an uncompressed one). */
  predicate Known(t: SuffixTable, uncompress: bool, suffix: string)
  {
    if uncompress then UncompressSuffix(t.entries, suffix).Some? else CompressSuffix(t.entries, suffix).Some?
  }

  /**
   * The shortest suffix of `lower`, from length `i` on and strictly shorter
   * than `lower`, that the table maps. Lengths outside the table's shortest
   * and longest suffix, which the library skips, never match anyway.
   */
  function ShortestMatch(t: SuffixTable, uncompress: bool, lower: string, i: nat): (r: Option<nat>)
    ensures r.Some? ==> i <= r.value < |lower| && Known(t, uncompress, Suffix(lower, r.value))
    ensures forall j :: i <= j < |lower| && (r.None? || j < r.value) ==> !Known(t, uncompress, Suffix(lower, j))
    decreases |lower| - i
  {
    if i >= |lower| then None
    else if Known(t, uncompress, Suffix(lower, i)) then Some(i)
    else ShortestMatch(t, uncompress, lower, i + 1)
  }

  /** The last `n` characters of `s`. */
  function Suffix(s: string, n: nat): (r: string)
    requires n <= |s|
    ensures |r| == n && EndsWith(s, r)
  {
    s[|s| - n..]
  }

  /** `isCompressedFilename`: some known compressed suffix, shorter than the name, ends it (ignoring case). */
  predicate IsCompressedName(t: SuffixTable, filename: string)
  {
    ShortestMatch(t, true, Lower(filename), 1).Some?
  }

  /** `getUncompressedFilename`: the shortest known compressed suffix is replaced by its uncompressed one. */
  function UncompressedName(t: SuffixTable, filename: string): (r: string)
    ensures !IsCompressedName(t, filename) ==> r == filename
  {
    var n := |filename|;
    match ShortestMatch(t, true, Lower(filename), 1)
    case None => filename
    case Some(i) => filename[..n - i] + UncompressSuffix(t.entries, Suffix(Lower(filename), i)).value
  }

  /** `getCompressedFilename`: the shortest known uncompressed suffix is replaced, else the default is appended. */
  function CompressedName(t: SuffixTable, filename: string): (r: string)
  {
    var n := |filename|;
    match ShortestMatch(t, false, Lower(filename), 1)
    case None => filename + t.defaultExtension
    case Some(i) => filename[..n - i] + CompressSuffix(t.entries, Suffix(Lower(filename), i)).value
  }

  /** `MaxCompressorStreamFactory.getCompressedFilename(name, filename)`. */
  function GetCompressedFilename(name: string, filename: string): (r: string)
    ensures name !in {BZIP2, GZIP, LZMA, XZ} ==> r == filename + "." + name
  {
    if name == BZIP2 then CompressedName(Bzip2Table, filename)
    else if name == GZIP then CompressedName(GzipTable, filename)
    else if name == LZMA then CompressedName(LzmaTable, filename)
    else if name == XZ then CompressedName(XzTable, filename)
    else filename + "." + name
  }

  /** Some format's suffix table claims the name: `isCompressedFilename` of bzip2, gz, lzma or xz holds. */
  predicate ClaimedByTable(filename: string)
  {
    IsCompressedName(Bzip2Table, filename) || IsCompressedName(GzipTable, filename) ||
    IsCompressedName(LzmaTable, filename) || IsCompressedName(XzTable, filename)
  }

  /** Removes `ext` from the end of `filename` when its lower-cased form ends with it. */
  function StripExtension(ext: string, filename: string): (r: string)
    ensures EndsWith(Lower(filename), ext) ==> |r| == |filename| - |ext| && filename == r + filename[|r|..]
    ensures !EndsWith(Lower(filename), ext) ==> r == filename
  {
    if EndsWith(Lower(filename), ext) then filename[..|filename| - |ext|] else filename
  }

  /** Stripping a lower-case extension undoes appending it. */
  lemma StripAppendedExtension(filename: string, ext: string)
    requires IsLowerCase(ext)
    ensures StripExtension(ext, filename + ext) == filename
  {
    LowerAppend(filename, ext);
    LowerOfLowerCase(ext);
    var c := filename + ext;
    assert Lower(c)[|Lower(c)| - |ext|..] == ext;
    assert c[..|c| - |ext|] == filename;
  }

  /** The extension a type name stands for; Java's string concatenation spells a null name "null". */
  function Extension(name: Option<string>): (ext: string)
    ensures StartsWith(ext, ".")
  {
    "." + (match name case None => "null" case Some(s) => s)
  }

  /**
   * `MaxCompressorStreamFactory.getUncompressedFilename(name, filename)`:
   * a known format uses its own table; otherwise the suffix tables are
   * tried by name in the order bzip2, gz, lzma, xz; otherwise the type's
   * extension is stripped when the lower-cased name ends with it.
   */
  function GetUncompressedFilename(name: Option<string>, filename: string): (r: string)
    ensures name !in {Some(BZIP2), Some(GZIP), Some(LZMA), Some(XZ)} && !ClaimedByTable(filename) ==>
              r == StripExtension(Extension(name), filename)
  {
    if name == Some(BZIP2) then UncompressedName(Bzip2Table, filename)
    else if name == Some(GZIP) then UncompressedName(GzipTable, filename)
    else if name == Some(LZMA) then UncompressedName(LzmaTable, filename)
    else if name == Some(XZ) then UncompressedName(XzTable, filename)
    else if IsCompressedName(Bzip2Table, filename) then UncompressedName(Bzip2Table, filename)
    else if IsCompressedName(GzipTable, filename) then UncompressedName(GzipTable, filename)
    else if IsCompressedName(LzmaTable, filename) then UncompressedName(LzmaTable, filename)
    else if IsCompressedName(XzTable, filename) then UncompressedName(XzTable, filename)
    else StripExtension(Extension(name), filename)
  }

  /**
   * Round trip for a format the factory does not know: with a lower-case
   * name, compressing and then uncompressing a file name gives it back,
   * unless a format's suffix table claims the compressed name first.
   */
  lemma UnknownTypeRoundTrip(name: string, filename: string)
    requires name !in {BZIP2, GZIP, LZMA, XZ} && IsLowerCase(name)
    requires !ClaimedByTable(filename + "." + name)
    ensures GetUncompressedFilename(Some(name), GetCompressedFilename(name, filename)) == filename
  {
    assert Extension(Some(name)) == "." + name;
    assert IsLowerCase("." + name);
    StripAppendedExtension(filename, "." + name);
  }

  /**
   * The example of `getUncompressedFilename`'s documentation: "package.tbz2"
   * becomes "package.tar", both with the bzip2 type and with a null type,
   * for which the bzip2 table is found from the name.
   */
  lemma TarballName(f: string)
    requires f == "package.tbz2"
    ensures GetUncompressedFilename(Some(BZIP2), f) == "package.tar"
    ensures GetUncompressedFilename(None, f) == "package.tar"
  {
    TarballSuffix(f);
    assert f[..|f| - 5] + ".tar" == "package.tar";
    NullTypeDetectsBzip2(f);
  }

  /** The shortest suffix of "package.tbz2" that the bzip2 table knows is ".tbz2", five characters long. */
  lemma TarballSuffix(f: string)
    requires f == "package.tbz2"
    ensures ShortestMatch(Bzip2Table, true, Lower(f), 1) == Some(5) && Suffix(Lower(f), 5) == ".tbz2"
  {
    assert IsLowerCase(f);
    LowerOfLowerCase(f);
    ShortSuffixUnknown(Bzip2Table.entries, 3, Suffix(f, 1));
    ShortSuffixUnknown(Bzip2Table.entries, 3, Suffix(f, 2));
    assert Suffix(f, 3) == "bz2" && Suffix(f, 4) == "tbz2" && Suffix(f, 5) == ".tbz2";
  }

  /** With a null type, a name the bzip2 table knows is mapped by that table. */
  lemma NullTypeDetectsBzip2(filename: string)
    requires IsCompressedName(Bzip2Table, filename)
    ensures GetUncompressedFilename(None, filename) == UncompressedName(Bzip2Table, filename)
  {
  }

  /** A null type is treated as the extension "null". */
  lemma NullTypeStripsNullSuffix(filename: string)
    requires !ClaimedByTable(filename + ".null")
    ensures GetUncompressedFilename(None, filename + ".null") == filename
  {
    assert Extension(None) == ".null";
    assert IsLowerCase(".null");
    StripAppendedExtension(filename, ".null");
  }

  /** Every key of the table is at least `n` long, so shorter suffixes are unknown. */
  lemma {:induction false} ShortSuffixUnknown(entries: seq<(string, string)>, n: nat, s: string)
    requires forall k :: 0 <= k < |entries| ==> |entries[k].0| >= n
    requires |s| < n
    ensures UncompressSuffix(entries, s).None?
  {
    if entries != [] {
      ShortSuffixUnknown(entries[1..], n, s);
    }
  }

  /** In the XZ table only ".tar" has a compressed form. */
  lemma XzCompressesOnlyTar(s: string)
    requires s != ".tar"
    ensures CompressSuffix(XzTable.entries, s).None?
  {
  }

  /** A name whose lower-cased form does not end in ".tar" gets the default ".xz" appended. */
  lemma {:induction false} XzCompressAppends(filename: string)
    requires !EndsWith(Lower(filename), ".tar")
    ensures CompressedName(XzTable, filename) == filename + ".xz"
  {
    var lower := Lower(filename);
    forall j | 1 <= j < |lower|
      ensures !Known(XzTable, false, Suffix(lower, j))
    {
      XzCompressesOnlyTar(Suffix(lower, j));
    }
    assert ShortestMatch(XzTable, false, lower, 1).None?;
  }

  /** Uncompressing removes a trailing ".xz" from a non-empty name. */
  lemma {:induction false} XzUncompressStrips(filename: string)
    requires filename != []
    ensures UncompressedName(XzTable, filename + ".xz") == filename
  {
    var c := filename + ".xz";
    LowerAppend(filename, ".xz");
    assert Lower(".xz") == ".xz";
    var lc := Lower(c);
    assert Suffix(lc, 3) == ".xz";
    forall j | 1 <= j < 3
      ensures !Known(XzTable, true, Suffix(lc, j))
    {
      ShortSuffixUnknown(XzTable.entries, 3, Suffix(lc, j));
    }
    ShortestMatchIs(XzTable, true, lc, 1, 3);
    assert c[..|c| - 3] == filename;
  }

  /** A known suffix length with no shorter known one from `i` on is the shortest match. */
  lemma {:induction false} ShortestMatchIs(t: SuffixTable, uncompress: bool, lower: string, i: nat, n: nat)
    requires i <= n < |lower| && Known(t, uncompress, Suffix(lower, n))
    requires forall j :: i <= j < n ==> !Known(t, uncompress, Suffix(lower, j))
    ensures ShortestMatch(t, uncompress, lower, i) == Some(n)
    decreases n - i
  {
    if i < n {
      ShortestMatchIs(t, uncompress, lower, i + 1, n);
    }
  }

  /** XZ round trip: a non-empty name not ending in ".tar" survives compressing and uncompressing. */
  lemma XzRoundTrip(filename: string)
    requires filename != [] && !EndsWith(Lower(filename), ".tar")
    ensures UncompressedName(XzTable, CompressedName(XzTable, filename)) == filename
  {
    XzCompressAppends(filename);
    XzUncompressStrips(filename);
  }

  /** A compression codec: decompression is assumed to invert compression. */
  datatype Codec = Codec(compress: seq<byte> -> seq<byte>, decompress: seq<byte> -> seq<byte>)

  ghost predicate Inverts(c: Codec)
  {
    forall data :: c.decompress(c.compress(data)) == data
  }
}
