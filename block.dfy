/** The block record of the ledger, its digest, how a block is built from its
    parent and how a candidate is checked against the current tip. */
module Blocks {

  /** A digest as the ledger stores it: a hex string. */
  type Digest = string

  /** The digest of a block's record: the decimal index, the timestamp, the
      decimal BPM and the previous hash, concatenated and hashed. The digest
      algorithm and its encoding are foreign calls, so the model takes the
      whole function as a parameter and assumes nothing about it. */
  type Hasher = (int, string, int, Digest) -> Digest

  /** One ledger entry. `difficulty` and `nonce` are carried but never read. */
  datatype Block = Block(
    index: int,
    timestamp: string,
    bpm: int,
    hash: Digest,
    prevHash: Digest,
    difficulty: int,
    nonce: string)

  /** The digest of the four hashed fields of `b`. */
  function CalculateHash(h: Hasher, b: Block): (d: Digest)
    ensures d == h(b.index, b.timestamp, b.bpm, b.prevHash)
  {
    h(b.index, b.timestamp, b.bpm, b.prevHash)
  }

  /** The digest reads only index, timestamp, BPM and previous hash: blocks that
      agree on those have the same digest, whatever their hash, difficulty and
      nonce fields hold. */
  lemma HashReadsOnlyRecord(h: Hasher, b: Block, c: Block)
    requires b.index == c.index && b.timestamp == c.timestamp
    requires b.bpm == c.bpm && b.prevHash == c.prevHash
    ensures CalculateHash(h, b) == CalculateHash(h, c)
    ensures CalculateHash(h, b.(hash := c.hash, difficulty := c.difficulty, nonce := c.nonce))
         == CalculateHash(h, b)
  {
  }

  /** The root of every chain: index 0, BPM 0 and an empty hash and previous
      hash; the remaining fields keep their zero values. */
  function Genesis(timestamp: string): (g: Block)
    ensures g.index == 0 && g.timestamp == timestamp && g.bpm == 0
    ensures g.hash == "" && g.prevHash == ""
    ensures g.difficulty == 0 && g.nonce == ""
  {
    Block(0, timestamp, 0, "", "", 0, "")
  }

  /** The genesis hash is left empty rather than computed, so genesis satisfies
      the hash equation only when the digest of its own record happens to be
      the empty string. */
  lemma GenesisHashNotComputed(h: Hasher, timestamp: string)
    ensures Genesis(timestamp).index == 0 && Genesis(timestamp).bpm == 0
    ensures Genesis(timestamp).prevHash == "" && Genesis(timestamp).hash == ""
    ensures CalculateHash(h, Genesis(timestamp)) == Genesis(timestamp).hash
        <==> h(0, timestamp, 0, "") == ""
  {
  }

  /** Builds the block that follows `parent`: next index, the given time and
      BPM, linked to the parent's hash, and hashed over its own record.
      `generateBlock` returns an error alongside the block but the error is
      always nil, so the result here is the block alone. */
  function GenerateBlock(h: Hasher, parent: Block, bpm: int, timestamp: string): (b: Block)
    ensures b.index == parent.index + 1
    ensures b.timestamp == timestamp && b.bpm == bpm
    ensures b.prevHash == parent.hash
    ensures b.hash == CalculateHash(h, b)
    ensures b.difficulty == 0 && b.nonce == ""
  {
    var unhashed := Block(parent.index + 1, timestamp, bpm, "", parent.hash, 0, "");
    unhashed.(hash := CalculateHash(h, unhashed))
  }

  /** The three checks of a candidate against the tip, in `isBlockValid`'s order,
      each one rejecting on failure. */
  function IsBlockValid(h: Hasher, candidate: Block, tip: Block): (valid: bool)
    ensures valid <==>
      && candidate.index == tip.index + 1
      && candidate.prevHash == tip.hash
      && candidate.hash == CalculateHash(h, candidate)
  {
    if candidate.index - 1 != tip.index then false
    else if candidate.prevHash != tip.hash then false
    else if CalculateHash(h, candidate) != candidate.hash then false
    else true
  }

  /** Round trip: a block built from a parent passes validation against that
      parent, for every digest function, BPM and time. */
  lemma GeneratedBlockIsValid(h: Hasher, parent: Block, bpm: int, timestamp: string)
    ensures IsBlockValid(h, GenerateBlock(h, parent, bpm, timestamp), parent)
  {
  }

  /** Tampering with a valid block: changing its index, previous hash or hash
      makes it invalid; changing its BPM keeps it valid exactly when the digest
      collides; changing difficulty or nonce never matters. */
  lemma TamperDetection(h: Hasher, b: Block, parent: Block,
                        index: int, prevHash: Digest, hash: Digest, bpm: int,
                        difficulty: int, nonce: string)
    requires IsBlockValid(h, b, parent)
    ensures index != b.index ==> !IsBlockValid(h, b.(index := index), parent)
    ensures prevHash != b.prevHash ==> !IsBlockValid(h, b.(prevHash := prevHash), parent)
    ensures hash != b.hash ==> !IsBlockValid(h, b.(hash := hash), parent)
    ensures IsBlockValid(h, b.(bpm := bpm), parent)
        <==> h(b.index, b.timestamp, bpm, b.prevHash) == b.hash
    ensures IsBlockValid(h, b.(difficulty := difficulty, nonce := nonce), parent)
  {
  }
}
