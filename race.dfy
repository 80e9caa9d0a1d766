/** Two connection handlers receiving a reading at the same moment. The
    handlers share the chain with no lock held, so both may validate their
    candidates against the same tip before either appends. Two schedules of
    the handlers G1 and G2 over lines 92-94 of the handler are modelled. */
module Race {
  import opened Blocks
  import opened Chain

  /** The schedule G1:92, G2:92, G1:93-94, G2:93-94: both candidates are
      checked against the same tip, G1 appends and stores its chain, and then
      G2 appends to the chain G1 stored and hands the result to fork choice. */
  function UnlockedPair(h: Hasher, chain: seq<Block>, first: Block, second: Block): (after: seq<Block>)
    requires |chain| > 0
    ensures after == chain
      + (if IsBlockValid(h, first, Tip(chain)) then [first] else [])
      + (if IsBlockValid(h, second, Tip(chain)) then [second] else [])
  {
    var firstValid := IsBlockValid(h, first, Tip(chain));
    var secondValid := IsBlockValid(h, second, Tip(chain));
    var afterFirst := if firstValid then ChooseChain(chain, chain + [first]) else chain;
    if secondValid then ChooseChain(afterFirst, afterFirst + [second]) else afterFirst
  }

  /** Without the lock, two readings handled at once both land on the chain,
      the second one carrying the same index as the first: the chain is no
      longer linked, whatever chain and readings the handlers start from. */
  lemma UnlockedPairBreaksLinkage(h: Hasher, chain: seq<Block>,
                                  bpm1: int, time1: string, bpm2: int, time2: string)
    requires |chain| > 0
    ensures var first := GenerateBlock(h, Tip(chain), bpm1, time1);
            var second := GenerateBlock(h, Tip(chain), bpm2, time2);
            var after := UnlockedPair(h, chain, first, second);
            after == chain + [first, second] && !Linked(h, after)
  {
    var first := GenerateBlock(h, Tip(chain), bpm1, time1);
    var second := GenerateBlock(h, Tip(chain), bpm2, time2);
    var after := UnlockedPair(h, chain, first, second);
    assert after == chain + [first] + [second];
    assert after[|chain| + 1] == second && after[|chain|] == first;
    assert !IsBlockValid(h, after[|chain| + 1], after[|chain|]);
  }

  /** The same two readings with validation and append held as one step: the
      handlers run one after the other, each against the tip it finds. */
  function SerializedPair(h: Hasher, chain: seq<Block>, first: Block, second: Block): (after: seq<Block>)
    requires |chain| > 0
    ensures IsBlockValid(h, first, Tip(chain)) ==>
      after == chain + [first] + (if IsBlockValid(h, second, first) then [second] else [])
    ensures !IsBlockValid(h, first, Tip(chain)) ==>
      after == chain + (if IsBlockValid(h, second, Tip(chain)) then [second] else [])
  {
    SubmitStep(h, SubmitStep(h, chain, first), second)
  }

  /** Serialized, of two candidates built on the same tip exactly the first
      one is accepted and the second is rejected as stale, on every chain; a
      linked chain stays linked. */
  lemma SerializedPairAcceptsOne(h: Hasher, chain: seq<Block>,
                                 bpm1: int, time1: string, bpm2: int, time2: string)
    requires |chain| > 0
    ensures var first := GenerateBlock(h, Tip(chain), bpm1, time1);
            var second := GenerateBlock(h, Tip(chain), bpm2, time2);
            var after := SerializedPair(h, chain, first, second);
            after == chain + [first] && (Linked(h, chain) ==> Linked(h, after))
  {
    var first := GenerateBlock(h, Tip(chain), bpm1, time1);
    if Linked(h, chain) {
      LinkedExtend(h, chain, first);
    }
  }

  /** The schedule G1:92, G2:92, G1:93, G2:93, G1:94, G2:94: both candidates
      are checked against the same tip and both handlers extend the same old
      chain before either stores its result; fork choice then runs for G1's
      chain and afterwards for G2's. */
  function OverlappedAppends(h: Hasher, chain: seq<Block>, first: Block, second: Block): (after: seq<Block>)
    requires |chain| > 0
    ensures IsBlockValid(h, first, Tip(chain)) ==> after == chain + [first]
    ensures !IsBlockValid(h, first, Tip(chain)) ==>
      after == chain + (if IsBlockValid(h, second, Tip(chain)) then [second] else [])
  {
    var firstValid := IsBlockValid(h, first, Tip(chain));
    var secondValid := IsBlockValid(h, second, Tip(chain));
    var firstChain := chain + [first];
    var secondChain := chain + [second];
    var afterFirst := if firstValid then ChooseChain(chain, firstChain) else chain;
    if secondValid then ChooseChain(afterFirst, secondChain) else afterFirst
  }

  /** In that schedule two readings built on the same tip leave only the first
      block on the chain, since G2's chain is no longer than the one G1 stored;
      a linked chain stays linked. */
  lemma OverlappedAppendsKeepsFirst(h: Hasher, chain: seq<Block>,
                                    bpm1: int, time1: string, bpm2: int, time2: string)
    requires |chain| > 0
    ensures var first := GenerateBlock(h, Tip(chain), bpm1, time1);
            var second := GenerateBlock(h, Tip(chain), bpm2, time2);
            var after := OverlappedAppends(h, chain, first, second);
            after == chain + [first] && (Linked(h, chain) ==> Linked(h, after))
  {
    var first := GenerateBlock(h, Tip(chain), bpm1, time1);
    if Linked(h, chain) {
      LinkedExtend(h, chain, first);
    }
  }
}
