/** Records and keys of the SNS cache canister. */
module SnsTypes {
  import opened Prelude
  import opened OrderedKeys

  datatype SnsCanister = SnsCanister(
    id: string,
    name: string,
    canisterId: string,
    description: string,
    logo: Option<string>,
    url: Option<string>,
    totalProposals: nat,
    activeProposals: nat,
    lastActivity: nat)

  type U64 = n: nat | n < TWO64

  datatype SnsProposal = SnsProposal(
    id: U64,
    title: string,
    summary: string,
    status: string,
    executed: bool,
    executedAt: Option<nat>,
    proposer: string,
    votesFor: nat,
    votesAgainst: nat,
    totalVotes: nat)

  datatype SnsError = CanisterNotFound | InvalidCanisterId | CrossCanisterCallFailed | InvalidData

  /** The derived order compares the canister first, then the proposal. */
  datatype ProposalKey = ProposalKey(canisterId: string, proposalId: U64)

  predicate KeyLe(a: ProposalKey, b: ProposalKey) {
    if a.canisterId == b.canisterId then a.proposalId <= b.proposalId
    else StringLe(a.canisterId, b.canisterId)
  }

  lemma KeyLeIsTotal()
    ensures TotalOrder(KeyLe)
  {
    StringLeIsTotal();
  }

  predicate ValidId(id: string) {
    id != "" && '-' in id
  }
}
