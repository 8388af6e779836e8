// The consensus messages the node handles (plugin/dapp/pos33/proto, node.go). Hashes
// stand for the 256-bit numbers difficulty.HashToBig reads from them; public keys,
// addresses and VRF values are opaque numbers.
module Messages {
  type Hash = nat
  type PubKey = nat
  type Addr = nat

  datatype VrfInput = VrfInput(seed: Hash, height: int, round: int, ty: int)

  datatype HashProof = HashProof(input: VrfInput, vrfHash: nat, vrfProof: nat, pubkey: PubKey)

  datatype SortMsg = SortMsg(hash: Hash, index: int, num: int, proof: HashProof)

  // A block vote: one sort of the committee voting for one candidate.
  datatype VoteMsg = VoteMsg(hash: Hash, sort: SortMsg, round: int)

  // A committee vote: the voter's own sorts and the hashes it selects.
  datatype SortsVote = SortsVote(mySorts: seq<SortMsg>, selectSorts: seq<Hash>, pubkey: PubKey)

  // A pre-block: its TxHash carries the sort hash of the candidate that made it.
  datatype PreBlock = PreBlock(txHash: Hash, parent: Hash, pubkey: PubKey)
}
