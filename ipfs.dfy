/**
 * Content identifiers and the local fallback of the storage service, used when
 * no Lighthouse API key is configured or the Lighthouse upload gives no hash.
 */
module Ipfs {
  import opened Bytes
  import opened Wrappers
  import opened Json
  import Utf8
  import Hex
  import Strings

  const LighthouseGateway: string := "https://gateway.lighthouse.storage/ipfs"
  const FilecoinGateway: string := "https://gateway.lighthouse.storage/ipfs"

  /** The prefix of every locally derived CID. */
  const CidPrefix: string := "bafkrei"

  /** How many hexadecimal digits of the digest a local CID keeps. */
  const CidDigits: nat := 52

  datatype UploadResult = UploadResult(cid: string, url: string, filecoinDeal: bool, size: Option<int>)

  /** `sha256(bytes)`: the digest in lower-case hexadecimal. */
  function ContentHash(h: Sha256, bytes: seq<Byte>): (r: string)
    ensures |r| == 64
  {
    Hex.Encode(h(bytes))
  }

  /** `hashToCid(hash)`: the prefix followed by at most the first 52 characters of the hash. */
  function HashToCid(hash: string): (r: string)
    ensures |r| == |CidPrefix| + Strings.Min(CidDigits, |hash|)
    ensures r[..|CidPrefix|] == CidPrefix
    ensures r[|CidPrefix|..] == hash[..Strings.Min(CidDigits, |hash|)]
  {
    CidPrefix + Strings.Slice(hash, 0, CidDigits)
  }

  /** The CID the fallback derives from some bytes. */
  function LocalCid(h: Sha256, bytes: seq<Byte>): (r: string)
    ensures |r| == |CidPrefix| + CidDigits
    ensures r[..|CidPrefix|] == CidPrefix
  {
    HashToCid(ContentHash(h, bytes))
  }

  /** A local CID is 59 characters: the prefix and the hexadecimal of the digest's first 26 bytes. */
  lemma LocalCidShape(h: Sha256, bytes: seq<Byte>)
    ensures |LocalCid(h, bytes)| == 59
    ensures LocalCid(h, bytes) == CidPrefix + Hex.Encode(h(bytes)[..26])
  {
    var cid := LocalCid(h, bytes);
    Hex.EncodePrefix(h(bytes), 26);
    assert cid == cid[..|CidPrefix|] + cid[|CidPrefix|..];
  }

  /** Two contents get the same local CID exactly when their digests agree on the first 26 bytes. */
  lemma LocalCidEqual(h: Sha256, a: seq<Byte>, b: seq<Byte>)
    ensures LocalCid(h, a) == LocalCid(h, b) <==> h(a)[..26] == h(b)[..26]
  {
    LocalCidShape(h, a);
    LocalCidShape(h, b);
    if LocalCid(h, a) == LocalCid(h, b) {
      assert Hex.Encode(h(a)[..26]) == LocalCid(h, a)[|CidPrefix|..] == Hex.Encode(h(b)[..26]);
      Hex.EncodeInjective(h(a)[..26], h(b)[..26]);
    }
  }

  /** The fallback result for some bytes, with no Filecoin deal. */
  function LocalUpload(h: Sha256, bytes: seq<Byte>): (r: UploadResult)
    ensures r.cid == LocalCid(h, bytes)
    ensures !r.filecoinDeal && r.size == None
    ensures r.url == GetUrl(r.cid)
  {
    var cid := HashToCid(ContentHash(h, bytes));
    UploadResult(cid, FilecoinGateway + "/" + cid, false, None)
  }

  /** `uploadJSON(data)` without Lighthouse: the UTF-8 bytes of `JSON.stringify(data)` are hashed. */
  function UploadJsonLocal(h: Sha256, stringify: Stringify, data: Value): (r: UploadResult)
    ensures r.cid == LocalCid(h, Utf8.Encode(stringify(data)))
    ensures r.url == GetUrl(r.cid) && !r.filecoinDeal && r.size == None
  {
    LocalUpload(h, Utf8.Encode(stringify(data)))
  }

  /** `uploadFile(file)` without Lighthouse: the file's bytes are hashed. */
  function UploadFileLocal(h: Sha256, file: File): (r: UploadResult)
    ensures r.cid == LocalCid(h, file.content)
    ensures r.url == GetUrl(r.cid) && !r.filecoinDeal && r.size == None
  {
    LocalUpload(h, file.content)
  }

  /** `getUrl(cid)`: the gateway, a slash, and the CID. */
  function GetUrl(cid: string): (r: string)
    ensures |r| == |LighthouseGateway| + 1 + |cid|
    ensures r[..|LighthouseGateway|] == LighthouseGateway
    ensures r[|LighthouseGateway|..] == "/" + cid
  {
    LighthouseGateway + "/" + cid
  }
}
