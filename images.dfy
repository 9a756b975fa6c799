/**
 * The image metadata record (`SolarNodeImageInfo`) and the JSON sidecar
 * that stores it, with the JSON codec left abstract.
 */
module Images {
  import opened Common

  /**
   * `SolarNodeImageInfo`: the id, the SHA-256 (hex) and length of the stored
   * (compressed) data, and the same two for the uncompressed data. A length
   * is `None` where the writer did not record one.
   */
  datatype ImageInfo = ImageInfo(
    id: string,
    sha256: Option<string>,
    contentLength: Option<int>,
    uncompressedSha256: Option<string>,
    uncompressedContentLength: Option<int>)

  /** Jackson's mapping between an info and its JSON bytes; `decode` fails on malformed input. */
  datatype InfoCodec = InfoCodec(encode: ImageInfo -> seq<byte>, decode: seq<byte> -> Option<ImageInfo>)

  /** Reading back what was written gives the same info. */
  ghost predicate Faithful(c: InfoCodec)
  {
    forall info :: c.decode(c.encode(info)) == Some(info)
  }

  /** The hex-encoded SHA-256 (FIPS 180-4) digest of a byte sequence, left abstract. */
  type DigestHex = seq<byte> -> string

  /** `new RuntimeException(message)`. */
  function RuntimeFailure(message: string): Failure
  {
    Failure("RuntimeException", Some(message))
  }
}
