/** The ledger store: the one mutable chain, replaced wholesale by fork choice
    and extended by the per-line accept step of a connection handler. */
module Ledger {
  import opened Blocks
  import opened Chain

  class Ledger {
    /** The digest function every block of this ledger is hashed with. */
    const hasher: Hasher
    /** The canonical chain. */
    var blocks: seq<Block>

    /** The chain always holds at least its genesis block, so it has a tip. */
    ghost predicate Valid()
      reads this
    {
      |blocks| > 0
    }

    /** Startup: the chain is the genesis block alone. */
    constructor (hasher: Hasher, genesisTimestamp: string)
      ensures Valid() && Linked(hasher, blocks)
      ensures this.hasher == hasher
      ensures blocks == [Genesis(genesisTimestamp)]
    {
      this.hasher := hasher;
      blocks := [Genesis(genesisTimestamp)];
    }

    /** Fork choice on the stored chain: the proposal replaces it only when
        strictly longer, so the chain never shrinks. */
    method ReplaceChain(newBlocks: seq<Block>)
      requires Valid()
      modifies this
      ensures Valid()
      ensures blocks == ChooseChain(old(blocks), newBlocks)
      ensures |blocks| >= |old(blocks)|
    {
      if |newBlocks| > |blocks| {
        blocks := newBlocks;
      }
    }

    /** Validate a candidate against the current tip and, when it passes, hand
        the chain with the candidate appended to fork choice. */
    method Submit(candidate: Block) returns (accepted: bool)
      requires Valid()
      modifies this
      ensures Valid()
      ensures accepted == IsBlockValid(hasher, candidate, Tip(old(blocks)))
      ensures blocks == SubmitStep(hasher, old(blocks), candidate)
      ensures accepted ==> blocks == old(blocks) + [candidate]
      ensures !accepted ==> blocks == old(blocks)
      ensures Linked(hasher, old(blocks)) ==> Linked(hasher, blocks)
    {
      accepted := IsBlockValid(hasher, candidate, blocks[|blocks| - 1]);
      if accepted {
        ghost var before := blocks;
        ReplaceChain(blocks + [candidate]);
        if Linked(hasher, before) {
          LinkedExtend(hasher, before, candidate);
        }
      }
    }

    /** The handler's step for one reading: build a block on the tip, validate
        it against the tip and append it. The built block always passes, so
        the chain grows by exactly that block. */
    method Accept(bpm: int, timestamp: string) returns (accepted: bool)
      requires Valid()
      modifies this
      ensures Valid()
      ensures blocks == AcceptStep(hasher, old(blocks), bpm, timestamp)
      ensures accepted
      ensures blocks == old(blocks) + [GenerateBlock(hasher, Tip(old(blocks)), bpm, timestamp)]
      ensures Linked(hasher, old(blocks)) ==> Linked(hasher, blocks)
    {
      var newBlock := GenerateBlock(hasher, blocks[|blocks| - 1], bpm, timestamp);
      accepted := Submit(newBlock);
    }

    /** The handler loop over the lines of one connection: readings are
        accepted in order, unparsable lines skipped. */
    method Serve(lines: seq<Line>)
      requires Valid()
      modifies this
      ensures Valid()
      ensures blocks == Run(hasher, old(blocks), lines)
      ensures |blocks| == |old(blocks)| + Readings(lines)
      ensures Linked(hasher, old(blocks)) ==> Linked(hasher, blocks)
    {
      var i := 0;
      while i < |lines|
        invariant 0 <= i <= |lines|
        invariant Valid()
        invariant blocks == Run(hasher, old(blocks), lines[..i])
      {
        assert lines[..i + 1][..i] == lines[..i];
        match lines[i] {
          case Reading(bpm, timestamp) =>
            var _ := Accept(bpm, timestamp);
          case NotANumber(_) =>
        }
        i := i + 1;
      }
      assert lines[..|lines|] == lines;
      if Linked(hasher, old(blocks)) {
        RunPreservesLinkage(hasher, old(blocks), lines);
      }
    }
  }

  /** The end-to-end scenario: a reading of 60 on a fresh ledger yields block 1
      linked to the genesis hash; a reading of 75 built on the now stale
      genesis tip is then rejected and the chain keeps two blocks. */
  method StaleSubmissionScenario(h: Hasher, t0: string, t1: string, t2: string)
    returns (length: nat, first: Block, staleAccepted: bool)
    ensures length == 2
    ensures first.index == 1 && first.bpm == 60 && first.prevHash == ""
    ensures !staleAccepted
  {
    var ledger := new Ledger(h, t0);
    var _ := ledger.Accept(60, t1);
    first := ledger.blocks[1];
    var stale := GenerateBlock(h, ledger.blocks[0], 75, t2);
    staleAccepted := ledger.Submit(stale);
    length := |ledger.blocks|;
  }
}
