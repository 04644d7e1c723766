/**
 * Integrity proofs: a hash commitment binding the hash of some data to a
 * timestamp and a nonce. `Date.now()` and `crypto.randomUUID()` are inputs.
 */
module Zk {
  import opened Bytes
  import opened Json
  import Utf8
  import Hex
  import Decimal
  import Strings

  datatype IntegrityProof = IntegrityProof(dataHash: string, timestamp: int, nonce: string, signature: string)

  /** `sha256Hex`: the SHA-256 digest of the UTF-8 bytes of `input`, in hexadecimal. */
  function Sha256Hex(h: Sha256, input: string): (r: string)
    ensures |r| == 2 * DigestLength == 64
    ensures forall i :: 0 <= i < |r| ==> Hex.IsHexDigit(r[i])
  {
    Hex.Encode(h(Utf8.Encode(input)))
  }

  /** The string that is hashed: a string as it is, anything else serialised. */
  function DataString(stringify: Stringify, data: Value): (s: string)
    ensures data.JString? ==> s == data.s
    ensures !data.JString? ==> s == stringify(data)
  {
    if data.JString? then data.s else stringify(data)
  }

  /** The text behind the signature: `${dataHash}:${timestamp}:${nonce}`. */
  function SignatureInput(dataHash: string, timestamp: int, nonce: string): (r: string)
    ensures |r| == |dataHash| + |Decimal.NumberToString(timestamp)| + |nonce| + 2
    ensures dataHash + ":" <= r
    ensures r[|r| - |nonce| - 1..] == ":" + nonce
  {
    dataHash + ":" + Decimal.NumberToString(timestamp) + ":" + nonce
  }

  /** `generateProof(data)` at time `timestamp` with random `nonce`. */
  function GenerateProof(h: Sha256, stringify: Stringify, data: Value, timestamp: int, nonce: string): (p: IntegrityProof)
    ensures p.timestamp == timestamp && p.nonce == nonce
    ensures |p.dataHash| == 64 && |p.signature| == 64
  {
    var dataHash := Sha256Hex(h, DataString(stringify, data));
    IntegrityProof(dataHash, timestamp, nonce, Sha256Hex(h, SignatureInput(dataHash, timestamp, nonce)))
  }

  /** `verifyProof(proof, data)`: the data hash is compared first, then the signature. */
  function VerifyProof(h: Sha256, stringify: Stringify, proof: IntegrityProof, data: Value): (ok: bool)
    ensures ok ==> proof.dataHash == Sha256Hex(h, DataString(stringify, data))
    ensures ok ==> |proof.dataHash| == 64 && |proof.signature| == 64
  {
    var dataHash := Sha256Hex(h, DataString(stringify, data));
    if dataHash != proof.dataHash then false
    else Sha256Hex(h, SignatureInput(proof.dataHash, proof.timestamp, proof.nonce)) == proof.signature
  }

  /** A proof is accepted exactly when both stored hashes are the recomputed ones. */
  lemma VerifyProofMeaning(h: Sha256, stringify: Stringify, proof: IntegrityProof, data: Value)
    ensures VerifyProof(h, stringify, proof, data) <==>
              && proof.dataHash == Sha256Hex(h, DataString(stringify, data))
              && proof.signature == Sha256Hex(h, SignatureInput(proof.dataHash, proof.timestamp, proof.nonce))
  {
  }

  /** Round trip: a generated proof verifies against the data it was made for. */
  lemma GeneratedProofVerifies(h: Sha256, stringify: Stringify, data: Value, timestamp: int, nonce: string)
    ensures VerifyProof(h, stringify, GenerateProof(h, stringify, data, timestamp, nonce), data)
  {
  }

  /**
   * An object and its serialised text are the same data to a proof: a proof
   * made for a non-string value also verifies against `JSON.stringify` of it.
   */
  lemma SerialisedFormVerifies(h: Sha256, stringify: Stringify, data: Value, timestamp: int, nonce: string)
    requires !data.JString?
    ensures VerifyProof(h, stringify, GenerateProof(h, stringify, data, timestamp, nonce), JString(stringify(data)))
  {
  }

  /** A data hash mismatch rejects the proof whatever its signature. */
  lemma DataHashMismatchRejects(h: Sha256, stringify: Stringify, proof: IntegrityProof, data: Value)
    requires Sha256Hex(h, DataString(stringify, data)) != proof.dataHash
    ensures forall sig :: !VerifyProof(h, stringify, proof.(signature := sig), data)
  {
  }

  /** Two SHA-256 hex strings agree only when the hashed strings do, unless the hash collides. */
  lemma Sha256HexDistinct(h: Sha256, a: string, b: string)
    requires a != b
    requires NoCollision(h, Utf8.Encode(a), Utf8.Encode(b))
    ensures Sha256Hex(h, a) != Sha256Hex(h, b)
  {
    if Sha256Hex(h, a) == Sha256Hex(h, b) {
      Hex.EncodeInjective(h(Utf8.Encode(a)), h(Utf8.Encode(b)));
      Utf8.EncodeInjective(a, b);
    }
  }

  /** A separator that neither first part contains splits both strings at the same place. */
  lemma {:induction false} SplitAtFirst(x: string, y: string, x': string, y': string, c: char)
    requires c !in x && c !in x'
    requires x + [c] + y == x' + [c] + y'
    ensures x == x' && y == y'
  {
    var s := x + [c] + y;
    if |x| < |x'| {
      ElementAfterPrefix(x, c, y);
      assert false;
    } else if |x'| < |x| {
      ElementAfterPrefix(x', c, y');
      assert false;
    }
    assert x == s[..|x|] == x';
    assert y == s[|x| + 1..] == y';
  }

  lemma ElementAfterPrefix(x: string, c: char, y: string)
    ensures (x + [c] + y)[|x|] == c
  {
  }

  lemma NumberHasNoColon(n: int)
    ensures ':' !in Decimal.NumberToString(n)
  {
  }

  /** With the data hash fixed, the signature text determines timestamp and nonce. */
  lemma SignatureInputInjective(dataHash: string, t: int, n: string, t': int, n': string)
    requires SignatureInput(dataHash, t, n) == SignatureInput(dataHash, t', n')
    ensures t == t' && n == n'
  {
    var a := Decimal.NumberToString(t);
    var a' := Decimal.NumberToString(t');
    var k := |dataHash| + 1;
    assert SignatureInput(dataHash, t, n)[k..] == a + [':'] + n;
    assert SignatureInput(dataHash, t', n')[k..] == a' + [':'] + n';
    NumberHasNoColon(t);
    NumberHasNoColon(t');
    SplitAtFirst(a, n, a', n', ':');
    Decimal.NumberToStringInjective(t, t');
  }

  /** Changing the stored signature of a generated proof makes it fail. */
  lemma TamperedSignatureRejected(h: Sha256, stringify: Stringify, data: Value, timestamp: int, nonce: string, sig: string)
    requires sig != GenerateProof(h, stringify, data, timestamp, nonce).signature
    ensures !VerifyProof(h, stringify, GenerateProof(h, stringify, data, timestamp, nonce).(signature := sig), data)
  {
  }

  /**
   * Changing the timestamp or the nonce of a generated proof, or both, makes it
   * fail, unless SHA-256 collides on the two signature texts.
   */
  lemma TamperedTimestampOrNonceRejected(h: Sha256, stringify: Stringify, data: Value,
                                         timestamp: int, nonce: string, timestamp': int, nonce': string)
    requires timestamp' != timestamp || nonce' != nonce
    requires var dataHash := Sha256Hex(h, DataString(stringify, data));
      NoCollision(h, Utf8.Encode(SignatureInput(dataHash, timestamp, nonce)),
                     Utf8.Encode(SignatureInput(dataHash, timestamp', nonce')))
    ensures !VerifyProof(h, stringify,
                         GenerateProof(h, stringify, data, timestamp, nonce).(timestamp := timestamp', nonce := nonce'),
                         data)
  {
    var dataHash := Sha256Hex(h, DataString(stringify, data));
    var a, b := SignatureInput(dataHash, timestamp, nonce), SignatureInput(dataHash, timestamp', nonce');
    if a == b {
      SignatureInputInjective(dataHash, timestamp, nonce, timestamp', nonce');
    }
    Sha256HexDistinct(h, a, b);
  }

  /** A proof made for one piece of data fails for data that hashes from a different string. */
  lemma TamperedDataRejected(h: Sha256, stringify: Stringify, data: Value, data': Value, timestamp: int, nonce: string)
    requires DataString(stringify, data') != DataString(stringify, data)
    requires NoCollision(h, Utf8.Encode(DataString(stringify, data)), Utf8.Encode(DataString(stringify, data')))
    ensures !VerifyProof(h, stringify, GenerateProof(h, stringify, data, timestamp, nonce), data')
  {
    Sha256HexDistinct(h, DataString(stringify, data), DataString(stringify, data'));
  }

  /** The number of leading bytes of a file that its proof covers. */
  const SampleSize: nat := 1024

  /** The first kilobyte of the file, or all of it when it is smaller. */
  function Sample(content: seq<Byte>): (r: seq<Byte>)
    ensures |r| == Strings.Min(SampleSize, |content|)
    ensures r == content[..|r|]
  {
    content[..Strings.Min(SampleSize, |content|)]
  }

  /** The bytes of a sample as decimal numbers. */
  function ByteStrings(bytes: seq<Byte>): (r: seq<string>)
    ensures |r| == |bytes|
    ensures forall i :: 0 <= i < |r| ==> r[i] == Decimal.NumberToString(bytes[i])
  {
    if bytes == [] then [] else [Decimal.NumberToString(bytes[0])] + ByteStrings(bytes[1..])
  }

  /** `file:${file.name}:${file.size}:${sample.join(",")}`. */
  function FileDataString(file: File): (r: string)
    ensures "file:" + file.name + ":" + Decimal.NumberToString(|file.content|) + ":" <= r
  {
    "file:" + file.name + ":" + Decimal.NumberToString(|file.content|) + ":"
      + Strings.Join(ByteStrings(Sample(file.content)), ',')
  }

  /** `generateFileProof(file)`: a proof of the file's data string. */
  function GenerateFileProof(h: Sha256, stringify: Stringify, file: File, timestamp: int, nonce: string): (p: IntegrityProof)
    ensures VerifyProof(h, stringify, p, JString(FileDataString(file)))
  {
    GenerateProof(h, stringify, JString(FileDataString(file)), timestamp, nonce)
  }

  /** Bytes past the first kilobyte are not covered: files that agree on name, size and sample get the same data hash. */
  lemma FileProofIgnoresTail(h: Sha256, stringify: Stringify, f: File, g: File, timestamp: int, nonce: string)
    requires f.name == g.name && |f.content| == |g.content|
    requires Sample(f.content) == Sample(g.content)
    ensures GenerateFileProof(h, stringify, f, timestamp, nonce) == GenerateFileProof(h, stringify, g, timestamp, nonce)
  {
  }

  /** A decimal byte list joined with commas determines the bytes. */
  lemma JoinedBytesInjective(a: seq<Byte>, b: seq<Byte>)
    requires |a| == |b|
    requires Strings.Join(ByteStrings(a), ',') == Strings.Join(ByteStrings(b), ',')
    ensures a == b
  {
    if |a| > 0 {
      var xs, ys := ByteStrings(a), ByteStrings(b);
      forall i | 0 <= i < |xs| ensures ',' !in xs[i] && ',' !in ys[i] {
        CommaFreeNumber(a[i]);
        CommaFreeNumber(b[i]);
      }
      Strings.SplitJoin(xs, ',');
      Strings.SplitJoin(ys, ',');
      forall i | 0 <= i < |a| ensures a[i] == b[i] {
        Decimal.NumberToStringInjective(a[i], b[i]);
      }
    }
  }

  lemma CommaFreeNumber(n: int)
    ensures ',' !in Decimal.NumberToString(n)
  {
  }

  /**
   * A change within the first kilobyte is detected: the proof of one file fails
   * against the data string of a same-named, same-sized file whose sample
   * differs (unless SHA-256 collides on the two data strings).
   */
  lemma FileProofCoversSample(h: Sha256, stringify: Stringify, f: File, g: File, timestamp: int, nonce: string)
    requires f.name == g.name && |f.content| == |g.content|
    requires Sample(f.content) != Sample(g.content)
    requires NoCollision(h, Utf8.Encode(FileDataString(f)), Utf8.Encode(FileDataString(g)))
    ensures !VerifyProof(h, stringify, GenerateFileProof(h, stringify, f, timestamp, nonce), JString(FileDataString(g)))
  {
    var head := "file:" + f.name + ":" + Decimal.NumberToString(|f.content|) + ":";
    var sf := Strings.Join(ByteStrings(Sample(f.content)), ',');
    var sg := Strings.Join(ByteStrings(Sample(g.content)), ',');
    if FileDataString(f) == FileDataString(g) {
      assert FileDataString(f) == head + sf && FileDataString(g) == head + sg;
      assert sf == (head + sf)[|head|..];
      assert sg == (head + sg)[|head|..];
      JoinedBytesInjective(Sample(f.content), Sample(g.content));
    }
    Sha256HexDistinct(h, FileDataString(f), FileDataString(g));
  }
}
