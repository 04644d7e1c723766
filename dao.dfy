/**
 * The DAO contract: proposals numbered by a counter, votes that add one to a
 * proposal's tally and the attached deposit to its contributions. The caller
 * and the deposit are parameters. Integer additions are checked: an overflow
 * panics, and a panic leaves the contract's state as it was.
 */
module Dao {
  import opened Wrappers
  import opened Near

  datatype Proposal = Proposal(
    id: U64,
    proposer: AccountId,
    title: string,
    description: string,
    votes: U64,
    contributions: U128)

  /** The panic message of `vote` for an unknown proposal. */
  const ProposalNotFound: string := "Proposal not found"

  class DaicDao {
    var proposals: map<U64, Proposal>
    var proposalCount: U64

    /**
     * The ids in use are exactly 0 .. proposalCount - 1, each proposal is
     * stored under its own id, and so there are proposalCount proposals.
     */
    ghost predicate Valid()
      reads this
    {
      && (forall k: U64 :: k in proposals <==> k < proposalCount)
      && (forall k :: k in proposals ==> proposals[k].id == k)
      && |proposals| == proposalCount
    }

    /** `new()`: no proposals and the counter at zero. */
    constructor ()
      ensures Valid()
      ensures proposals == map[] && proposalCount == 0
    {
      proposals := map[];
      proposalCount := 0;
    }

    /**
     * `create_proposal`: stores a proposal with no votes and no contributions
     * under the current counter value, returns that value and bumps the counter.
     */
    method CreateProposal(title: string, description: string, predecessor: AccountId) returns (r: Result<U64, string>)
      requires Valid()
      modifies this
      ensures Valid()
      ensures old(proposalCount) < U64Max ==>
                && r == Ok(old(proposalCount))
                && old(proposalCount) !in old(proposals)
                && proposalCount == old(proposalCount) + 1
                && proposals == old(proposals)[old(proposalCount) := Proposal(old(proposalCount), predecessor, title, description, 0, 0)]
      ensures old(proposalCount) == U64Max ==>
                r == Err(AddOverflow) && proposals == old(proposals) && proposalCount == old(proposalCount)
    {
      var id := proposalCount;
      if id == U64Max {
        return Err(AddOverflow);
      }
      var proposal := Proposal(id, predecessor, title, description, 0, 0);
      proposals := proposals[id := proposal];
      proposalCount := proposalCount + 1;
      r := Ok(id);
    }

    /**
     * `vote`: one more vote and `deposit` more contributions for an existing
     * proposal; every other proposal and the counter stay as they were.
     */
    method Vote(proposalId: U64, deposit: U128) returns (r: Result<(), string>)
      requires Valid()
      modifies this
      ensures Valid()
      ensures proposalCount == old(proposalCount)
      ensures proposalId !in old(proposals) ==> r == Err(ProposalNotFound) && proposals == old(proposals)
      ensures proposalId in old(proposals) ==>
                var p := old(proposals)[proposalId];
                if p.votes == U64Max || p.contributions + deposit > U128Max then
                  r == Err(AddOverflow) && proposals == old(proposals)
                else
                  r == Ok(()) &&
                  proposals == old(proposals)[proposalId := p.(votes := p.votes + 1, contributions := p.contributions + deposit)]
    {
      if proposalId !in proposals {
        return Err(ProposalNotFound);
      }
      var p := proposals[proposalId];
      if p.votes == U64Max || p.contributions + deposit > U128Max {
        return Err(AddOverflow);
      }
      proposals := proposals[proposalId := p.(votes := p.votes + 1, contributions := p.contributions + deposit)];
      r := Ok(());
    }

    /** `get_proposal`: the proposal with that id, present exactly for ids below the counter. */
    function GetProposal(proposalId: U64): (r: Option<Proposal>)
      reads this
      ensures Valid() ==> (r.Some? <==> proposalId < proposalCount)
      ensures r.Some? ==> proposalId in proposals && r.value == proposals[proposalId]
      ensures Valid() && r.Some? ==> r.value.id == proposalId
    {
      if proposalId in proposals then Some(proposals[proposalId]) else None
    }

    /**
     * `get_all_proposals`: the stored proposals in the map's iteration order,
     * which is insertion order and so ascending id.
     */
    method GetAllProposals() returns (all: seq<Proposal>)
      requires Valid()
      ensures |all| == proposalCount
      ensures forall i :: 0 <= i < |all| ==> i in proposals && all[i] == proposals[i]
      ensures forall p :: p in all <==> p in proposals.Values
    {
      all := [];
      var i: U64 := 0;
      while i < proposalCount
        invariant i <= proposalCount
        invariant |all| == i
        invariant forall j :: 0 <= j < i ==> j in proposals && all[j] == proposals[j]
      {
        all := all + [proposals[i]];
        i := i + 1;
      }
      forall p | p in proposals.Values ensures p in all {
        var k :| k in proposals && proposals[k] == p;
        assert all[k] == p;
      }
    }
  }
}
