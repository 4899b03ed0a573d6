/**
 * The storage-type byte code of the command-line tool and the pure parts of
 * its upload path (cli/src/storage.rs).
 *
 * A storage type travels as one byte: 0 is Swarm, 1 is IPFS, any other byte
 * is kept as an unknown storage type that carries the byte itself.
 */
module Storage {
  import opened Base

  datatype Storage = Swarm | Ipfs | Unknown(code: u8)

  /** `Storage::from`: every byte decodes; bytes from 2 up stay visible as `Unknown`. */
  function FromByte(n: u8): (s: Storage)
    ensures n == 0 ==> s == Swarm
    ensures n == 1 ==> s == Ipfs
    ensures s.Unknown? <==> n >= 2
    ensures s.Unknown? ==> s.code == n
  {
    match n
    case 0 => Swarm
    case 1 => Ipfs
    case _ => Unknown(n)
  }

  /** `Storage::to_u8`: Swarm and IPFS take the two lowest bytes, `Unknown` its own byte. */
  function ToByte(s: Storage): (n: u8)
    ensures s.Unknown? ==> n == s.code
    ensures n < 2 <==> !s.Unknown? || s.code < 2
  {
    match s
    case Swarm => 0
    case Ipfs => 1
    case Unknown(u) => u
  }

  /** Decoding then encoding gives back every byte. */
  lemma ByteRoundTrip(n: u8)
    ensures ToByte(FromByte(n)) == n
  {
  }

  /**
   * Encoding then decoding gives back the storage type except for
   * `Unknown(0)` and `Unknown(1)`, which share their byte with Swarm and IPFS.
   */
  lemma StorageRoundTrip(s: Storage)
    ensures FromByte(ToByte(s)) == s <==> !(s.Unknown? && s.code < 2)
  {
  }

  /** The two `Unknown` values that do not survive an encode/decode round trip. */
  lemma UnknownLowCodesCollide()
    ensures FromByte(ToByte(Unknown(0))) == Swarm
    ensures FromByte(ToByte(Unknown(1))) == Ipfs
  {
  }

  /** The storage back ends an upload can go to. */
  datatype Backend = SwarmBackend | IpfsBackend

  datatype UploadError =
    | UnknownStorage(code: u8)      // "Unknown type of storage: {u}"
    | BackendFailed(message: string) // any failure reported by the upload itself

  /** A 32-byte hash, `H256`, as its bytes. */
  type Hash = seq<u8>

  /**
   * The outcome of `upload_to_storage`: which back end was contacted, if any,
   * and what was returned.
   */
  datatype Upload = Upload(contacted: Option<Backend>, result: Result<Hash, UploadError>)

  /**
   * `upload_to_storage`. The uploads themselves (file reads, HTTP requests,
   * JSON and hex parsing) are I/O, so their outcomes are parameters: `swarm`
   * is what uploading to Swarm and parsing its hex answer yields, `ipfs` what
   * uploading to IPFS yields.
   */
  function UploadToStorage(storage: Storage, swarm: Result<Hash, UploadError>,
                           ipfs: Result<Hash, UploadError>): (u: Upload)
    ensures u.contacted.None? <==> storage.Unknown?
    ensures storage.Unknown? ==> u.result == Err(UnknownStorage(storage.code))
    ensures storage == Swarm ==> u == Upload(Some(SwarmBackend), swarm)
    ensures storage == Ipfs ==> u == Upload(Some(IpfsBackend), ipfs)
  {
    match storage
    case Swarm => Upload(Some(SwarmBackend), swarm)
    case Ipfs => Upload(Some(IpfsBackend), ipfs)
    case Unknown(u) => Upload(None, Err(UnknownStorage(u)))
  }

  /** Length of the multihash header IPFS puts in front of the digest. */
  const MultihashPrefixLength: nat := 2

  /**
   * The last step of `upload_code_to_ipfs`: the base58-decoded multihash with
   * its 2-byte header dropped. Slicing a shorter byte string panics in the
   * source; that is `None` here.
   */
  function StripMultihashPrefix(bytes: seq<u8>): (digest: Option<seq<u8>>)
    ensures digest.Some? <==> |bytes| >= MultihashPrefixLength
    ensures digest.Some? ==> |digest.value| == |bytes| - MultihashPrefixLength
    ensures digest.Some? ==> bytes[..MultihashPrefixLength] + digest.value == bytes
  {
    if |bytes| < MultihashPrefixLength then None else Some(bytes[MultihashPrefixLength..])
  }

  /** Putting back any 2-byte header and stripping it again yields the digest. */
  lemma StripAfterPrefix(header: seq<u8>, digest: seq<u8>)
    requires |header| == MultihashPrefixLength
    ensures StripMultihashPrefix(header + digest) == Some(digest)
  {
    assert (header + digest)[MultihashPrefixLength..] == digest;
  }
}
