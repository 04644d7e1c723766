/**
 * The DID registry contract: one DID document per account, written by the
 * account itself. The caller and the block time are parameters.
 */
module DidRegistry {
  import opened Wrappers
  import opened Near

  datatype DidDocument = DidDocument(
    id: string,
    verificationMethod: string,
    controller: AccountId,
    created: U64)

  const DidPrefix: string := "did:near:"

  /** The DID of an account: `did:near:<account_id>`. */
  function DidOf(account: AccountId): (r: string)
    ensures |r| == |DidPrefix| + |account|
    ensures r[..|DidPrefix|] == DidPrefix && r[|DidPrefix|..] == account
  {
    DidPrefix + account
  }

  /** The account named by a `did:near:` identifier, the inverse of `DidOf`. */
  function StripDidPrefix(did: string): (r: Option<AccountId>)
    ensures r.Some? <==> |did| >= |DidPrefix| && did[..|DidPrefix|] == DidPrefix
    ensures r.Some? ==> did == DidOf(r.value)
  {
    if |did| >= |DidPrefix| && did[..|DidPrefix|] == DidPrefix then Some(did[|DidPrefix|..]) else None
  }

  lemma StripDidOf(account: AccountId)
    ensures StripDidPrefix(DidOf(account)) == Some(account)
  {
    assert DidOf(account)[..|DidPrefix|] == DidPrefix;
  }

  class DaicDidRegistry {
    var dids: map<AccountId, DidDocument>

    /** Every document is the caller's own: its DID names its key, and so does its controller. */
    ghost predicate Valid()
      reads this
    {
      forall k :: k in dids ==> dids[k].id == DidOf(k) && dids[k].controller == k
    }

    /** `new()`: no documents. */
    constructor ()
      ensures Valid()
      ensures dids == map[]
      ensures forall a :: ResolveDid(a) == None
    {
      dids := map[];
    }

    /** `register_did`: writes the caller's document, replacing any earlier one. */
    method RegisterDid(verificationMethod: string, predecessor: AccountId, blockTimestamp: U64)
      requires Valid()
      modifies this
      ensures Valid()
      ensures dids == old(dids)[predecessor := DidDocument(DidOf(predecessor), verificationMethod, predecessor, blockTimestamp)]
      ensures ResolveDid(predecessor) == Some(DidDocument(DidOf(predecessor), verificationMethod, predecessor, blockTimestamp))
      ensures forall a :: a != predecessor ==> ResolveDid(a) == old(ResolveDid(a))
    {
      var doc := DidDocument(DidOf(predecessor), verificationMethod, predecessor, blockTimestamp);
      dids := dids[predecessor := doc];
    }

    /** `resolve_did`: the account's document, whose DID strips back to the account. */
    function ResolveDid(account: AccountId): (r: Option<DidDocument>)
      reads this
      ensures r.Some? <==> account in dids
      ensures r.Some? ==> r.value == dids[account]
      ensures Valid() && r.Some? ==> StripDidPrefix(r.value.id) == Some(account) && r.value.controller == account
    {
      if account in dids then
        StripDidOf(account);
        Some(dids[account])
      else None
    }
  }
}
