/**
 * The dataset registration form: the guard on submitting, where the CID
 * comes from, the integrity proof over the form, the parsing of the
 * comma-separated parent ids, and the registration on the provenance
 * contract.
 */
module DatasetsPage {
  import opened Wrappers
  import opened Bytes
  import opened Json
  import opened Near
  import Strings
  import Utf8
  import Zk
  import Ipfs
  import Provenance

  /** `.map(s => s.trim()).filter(Boolean)`: trim each piece and drop the empty ones. */
  function CleanPieces(pieces: seq<string>): (r: seq<string>)
    ensures |r| <= |pieces|
    ensures forall i :: 0 <= i < |r| ==> r[i] != ""
  {
    if pieces == [] then []
    else
      var t := Strings.Trim(pieces[0]);
      if t == "" then CleanPieces(pieces[1..]) else [t] + CleanPieces(pieces[1..])
  }

  /** `parentIds.split(",").map(s => s.trim()).filter(Boolean)`. */
  function ParseLineage(parentIds: string): (r: seq<string>)
    ensures |r| <= |Strings.Split(parentIds, ',')|
    ensures forall i :: 0 <= i < |r| ==> r[i] != ""
  {
    CleanPieces(Strings.Split(parentIds, ','))
  }

  /** A character absent from a string is absent from its trimmed form. */
  lemma TrimKeepsOut(s: string, c: char)
    requires c !in s
    ensures c !in Strings.Trim(s)
  {
    Strings.TrimSpec(s);
    var i, j :| 0 <= i <= j <= |s| && Strings.Trim(s) == s[i..j];
  }

  lemma {:induction false} CleanPiecesWellFormed(pieces: seq<string>, sep: char)
    requires forall i :: 0 <= i < |pieces| ==> sep !in pieces[i]
    ensures forall i :: 0 <= i < |CleanPieces(pieces)| ==>
              CleanPieces(pieces)[i] != "" && Strings.IsTrimmed(CleanPieces(pieces)[i]) && sep !in CleanPieces(pieces)[i]
  {
    if pieces != [] {
      CleanPiecesWellFormed(pieces[1..], sep);
      Strings.TrimSpec(pieces[0]);
      TrimKeepsOut(pieces[0], sep);
    }
  }

  /** Every parent id is non-empty, has no white space at either end, and holds no comma. */
  lemma ParseLineageWellFormed(parentIds: string)
    ensures forall i :: 0 <= i < |ParseLineage(parentIds)| ==>
              && ParseLineage(parentIds)[i] != ""
              && Strings.IsTrimmed(ParseLineage(parentIds)[i])
              && ',' !in ParseLineage(parentIds)[i]
  {
    CleanPiecesWellFormed(Strings.Split(parentIds, ','), ',');
  }

  /** A blank parent-ids field gives no parents. */
  lemma ParseLineageBlank(parentIds: string)
    requires Strings.AllWhiteSpace(parentIds)
    ensures ParseLineage(parentIds) == []
  {
    assert !Strings.IsWhiteSpace(',');
    assert forall i :: 0 <= i < |parentIds| ==> parentIds[i] != ',';
    Strings.SplitNoSeparator(parentIds, ',');
    Strings.TrimEmpty(parentIds);
    assert Strings.Split(parentIds, ',') == [parentIds];
    assert Strings.Trim(parentIds) == "";
    assert [parentIds][1..] == [];
    assert CleanPieces([parentIds]) == CleanPieces([]);
  }

  lemma {:induction false} CleanPiecesOfClean(ids: seq<string>)
    requires forall i :: 0 <= i < |ids| ==> ids[i] != "" && Strings.IsTrimmed(ids[i])
    ensures CleanPieces(ids) == ids
  {
    if ids != [] {
      Strings.TrimTrimmed(ids[0]);
      CleanPiecesOfClean(ids[1..]);
    }
  }

  /** Writing parent ids joined by commas and parsing the field gives them back. */
  lemma ParseLineageJoin(ids: seq<string>)
    requires forall i :: 0 <= i < |ids| ==> ids[i] != "" && Strings.IsTrimmed(ids[i]) && ',' !in ids[i]
    ensures ParseLineage(Strings.Join(ids, ',')) == ids
  {
    if ids == [] {
      Strings.SplitNoSeparator("", ',');
      Strings.TrimEmpty("");
    } else {
      Strings.SplitJoin(ids, ',');
      CleanPiecesOfClean(ids);
    }
  }

  /** `!title.trim() || !description.trim()` returns early. */
  function CanSubmit(title: string, description: string): (ok: bool)
    ensures ok ==> title != "" && description != ""
  {
    Strings.Trim(title) != "" && Strings.Trim(description) != ""
  }

  /** The form is submitted exactly when neither the title nor the description is blank. */
  lemma CanSubmitMeaning(title: string, description: string)
    ensures CanSubmit(title, description) <==> !Strings.AllWhiteSpace(title) && !Strings.AllWhiteSpace(description)
  {
    Strings.TrimEmpty(title);
    Strings.TrimEmpty(description);
  }

  /** The metadata uploaded when no file is chosen: `{ title, description, timestamp }`. */
  function Metadata(title: string, description: string, now: int): (v: Value)
    ensures v.JObject? && |v.members| == 3
    ensures v.members[0] == ("title", JString(title)) && v.members[1] == ("description", JString(description))
    ensures v.members[2] == ("timestamp", JNumber(now))
  {
    JObject([("title", JString(title)), ("description", JString(description)), ("timestamp", JNumber(now))])
  }

  /** The data the integrity proof covers: `{ title, description, cid }`. */
  function ProofData(title: string, description: string, cid: string): (v: Value)
    ensures v.JObject? && |v.members| == 3
    ensures v.members[0] == ("title", JString(title)) && v.members[1] == ("description", JString(description))
    ensures v.members[2] == ("cid", JString(cid))
  {
    JObject([("title", JString(title)), ("description", JString(description)), ("cid", JString(cid))])
  }

  /** The CID the dataset is registered under: the chosen file, or else the metadata. */
  function DatasetCid(h: Sha256, stringify: Stringify, title: string, description: string,
                      file: Option<File>, now: int): (cid: string)
    ensures file.Some? ==> cid == Ipfs.LocalCid(h, file.value.content)
    ensures file.None? ==> cid == Ipfs.LocalCid(h, Utf8.Encode(stringify(Metadata(title, description, now))))
  {
    if file.Some? then Ipfs.UploadFileLocal(h, file.value).cid
    else Ipfs.UploadJsonLocal(h, stringify, Metadata(title, description, now)).cid
  }

  /**
   * With a file chosen, the CID depends on the file's bytes alone: neither
   * the title, the description, the file name nor the clock changes it.
   */
  lemma FileCidIgnoresForm(h: Sha256, stringify: Stringify, t1: string, d1: string, f1: File, n1: int,
                           t2: string, d2: string, f2: File, n2: int)
    requires f1.content == f2.content
    ensures DatasetCid(h, stringify, t1, d1, Some(f1), n1) == DatasetCid(h, stringify, t2, d2, Some(f2), n2)
  {
  }

  /** Every CID the form registers is a 59-character local CID. */
  lemma DatasetCidShape(h: Sha256, stringify: Stringify, title: string, description: string, file: Option<File>, now: int)
    ensures |DatasetCid(h, stringify, title, description, file, now)| == 59
    ensures DatasetCid(h, stringify, title, description, file, now)[..|Ipfs.CidPrefix|] == Ipfs.CidPrefix
  {
    var bytes := if file.Some? then file.value.content else Utf8.Encode(stringify(Metadata(title, description, now)));
    Ipfs.LocalCidShape(h, bytes);
  }

  class DatasetsForm {
    var title: string
    var description: string
    var file: Option<File>
    var parentIds: string
    var lastCid: string
    var lastProof: Option<Zk.IntegrityProof>

    constructor ()
      ensures title == "" && description == "" && file == None && parentIds == ""
      ensures lastCid == "" && lastProof == None
    {
      title := "";
      description := "";
      file := None;
      parentIds := "";
      lastCid := "";
      lastProof := None;
    }

    /**
     * `handleSubmit`: with a blank title or description nothing happens.
     * Otherwise the file or the metadata is uploaded, the proof is made over
     * the title, the description and the CID, the dataset is registered under
     * the CID with the parsed parents, and the form is cleared.
     */
    method HandleSubmit(h: Sha256, stringify: Stringify, registry: Provenance.DaicProvenance,
                        caller: AccountId, blockTimestamp: U64, uploadTime: int, proofTime: int, nonce: string)
      returns (submitted: bool)
      requires registry.Valid()
      modifies this, registry
      ensures registry.Valid()
      ensures submitted == CanSubmit(old(title), old(description))
      ensures !submitted ==> unchanged(this) && registry.datasets == old(registry.datasets)
      ensures submitted ==>
                && lastCid == DatasetCid(h, stringify, old(title), old(description), old(file), uploadTime)
                && lastProof == Some(Zk.GenerateProof(h, stringify, ProofData(old(title), old(description), lastCid), proofTime, nonce))
                && registry.datasets == old(registry.datasets)[lastCid :=
                     Provenance.Dataset(lastCid, caller, old(title), old(description), ParseLineage(old(parentIds)), blockTimestamp)]
                && title == "" && description == "" && file == None && parentIds == ""
      ensures submitted ==> Zk.VerifyProof(h, stringify, lastProof.value, ProofData(old(title), old(description), lastCid))
    {
      if !CanSubmit(title, description) {
        return false;
      }
      ghost var t, d := title, description;
      Submit(h, stringify, registry, caller, blockTimestamp, uploadTime, proofTime, nonce);
      Zk.GeneratedProofVerifies(h, stringify, ProofData(t, d, lastCid), proofTime, nonce);
      submitted := true;
    }

    /** The steps after the guard: upload, proof, registration, and clearing the form. */
    method Submit(h: Sha256, stringify: Stringify, registry: Provenance.DaicProvenance,
                  caller: AccountId, blockTimestamp: U64, uploadTime: int, proofTime: int, nonce: string)
      requires registry.Valid()
      modifies this, registry
      ensures registry.Valid()
      ensures lastCid == DatasetCid(h, stringify, old(title), old(description), old(file), uploadTime)
      ensures lastProof == Some(Zk.GenerateProof(h, stringify, ProofData(old(title), old(description), lastCid), proofTime, nonce))
      ensures registry.datasets == old(registry.datasets)[lastCid :=
                Provenance.Dataset(lastCid, caller, old(title), old(description), ParseLineage(old(parentIds)), blockTimestamp)]
      ensures title == "" && description == "" && file == None && parentIds == ""
    {
      var cid := DatasetCid(h, stringify, title, description, file, uploadTime);
      var proof := Zk.GenerateProof(h, stringify, ProofData(title, description, cid), proofTime, nonce);
      registry.RegisterDataset(cid, title, description, ParseLineage(parentIds), caller, blockTimestamp);
      lastCid, lastProof := cid, Some(proof);
      ClearForm();
    }

    /** The form fields are emptied once the dataset is registered; the last CID and proof stay. */
    method ClearForm()
      modifies this
      ensures title == "" && description == "" && file == None && parentIds == ""
      ensures lastCid == old(lastCid) && lastProof == old(lastProof)
    {
      title, description, file, parentIds := "", "", None, "";
    }
  }
}
