/** Chains of blocks as values: the linkage invariant, the fork-choice rule and
    the accept step that the ledger class performs on its chain. */
module Chain {
  import opened Blocks

  /** The most recent block. */
  function Tip(chain: seq<Block>): (t: Block)
    requires |chain| > 0
    ensures t in chain
  {
    chain[|chain| - 1]
  }

  /** Every block after the first is valid against its predecessor. */
  predicate Linked(h: Hasher, chain: seq<Block>)
  {
    forall i :: 1 <= i < |chain| ==> IsBlockValid(h, chain[i], chain[i - 1])
  }

  /** Along a linked chain the index grows by exactly one per block. */
  lemma {:induction false} LinkedIndices(h: Hasher, chain: seq<Block>)
    requires Linked(h, chain)
    ensures forall j :: 0 <= j < |chain| ==> chain[j].index == chain[0].index + j
  {
    if |chain| > 1 {
      var prefix := chain[..|chain| - 1];
      assert Linked(h, prefix) by {
        forall i | 1 <= i < |prefix|
          ensures IsBlockValid(h, prefix[i], prefix[i - 1])
        {
          assert prefix[i] == chain[i] && prefix[i - 1] == chain[i - 1];
        }
      }
      LinkedIndices(h, prefix);
      assert forall j :: 0 <= j < |prefix| ==> chain[j] == prefix[j];
      assert IsBlockValid(h, chain[|chain| - 1], chain[|chain| - 2]);
    }
  }

  /** A candidate that is valid against the tip extends a linked chain to a
      linked chain. */
  lemma LinkedExtend(h: Hasher, chain: seq<Block>, candidate: Block)
    requires |chain| > 0 && Linked(h, chain)
    requires IsBlockValid(h, candidate, Tip(chain))
    ensures Linked(h, chain + [candidate])
  {
    var longer := chain + [candidate];
    forall i | 1 <= i < |longer|
      ensures IsBlockValid(h, longer[i], longer[i - 1])
    {
      if i < |chain| {
        assert longer[i] == chain[i] && longer[i - 1] == chain[i - 1];
      }
    }
  }

  /** A block built against an earlier block of a linked chain (its index is
      that block's index plus one) is rejected once the tip has moved past
      that block: the index check fails. */
  lemma StaleCandidateRejected(h: Hasher, chain: seq<Block>, k: nat, candidate: Block)
    requires Linked(h, chain)
    requires k < |chain| - 1
    requires candidate.index == chain[k].index + 1
    ensures candidate.index != Tip(chain).index + 1
    ensures !IsBlockValid(h, candidate, Tip(chain))
  {
    LinkedIndices(h, chain);
  }

  /** Any block already in a linked chain, submitted again, is rejected rather
      than appended a second time. */
  lemma ResubmissionRejected(h: Hasher, chain: seq<Block>, j: nat)
    requires Linked(h, chain)
    requires j < |chain|
    ensures !IsBlockValid(h, chain[j], Tip(chain))
  {
    LinkedIndices(h, chain);
  }

  /** Fork choice: the proposed chain wins only when strictly longer; on a tie
      or a shorter proposal the current chain stays. */
  function ChooseChain(current: seq<Block>, proposed: seq<Block>): (chosen: seq<Block>)
    ensures chosen == current || chosen == proposed
    ensures |chosen| >= |current| && |chosen| >= |proposed|
    ensures |proposed| <= |current| ==> chosen == current
  {
    if |proposed| > |current| then proposed else current
  }

  /** Fork choice compares lengths only: a longer proposal replaces a linked
      chain even when the proposal is not linked. */
  lemma ChooseChainIgnoresLinkage(h: Hasher, current: seq<Block>, proposed: seq<Block>)
    requires |proposed| > |current|
    ensures ChooseChain(current, proposed) == proposed
    ensures Linked(h, ChooseChain(current, proposed)) == Linked(h, proposed)
  {
  }

  /** The validate-then-append step for a given candidate: validated against
      the tip, appended, and the longer chain handed to fork choice. */
  function SubmitStep(h: Hasher, chain: seq<Block>, candidate: Block): (next: seq<Block>)
    requires |chain| > 0
    ensures IsBlockValid(h, candidate, Tip(chain)) ==> next == chain + [candidate]
    ensures !IsBlockValid(h, candidate, Tip(chain)) ==> next == chain
  {
    if IsBlockValid(h, candidate, Tip(chain)) then ChooseChain(chain, chain + [candidate])
    else chain
  }

  /** The submit step keeps a linked chain linked. */
  lemma SubmitPreservesLinkage(h: Hasher, chain: seq<Block>, candidate: Block)
    requires |chain| > 0 && Linked(h, chain)
    ensures Linked(h, SubmitStep(h, chain, candidate))
  {
    if IsBlockValid(h, candidate, Tip(chain)) {
      LinkedExtend(h, chain, candidate);
    }
  }

  /** One accepted reading: build a block on the tip, then submit it. Because
      the built block always validates, the chain always grows by exactly that
      block and its earlier blocks are untouched. */
  function AcceptStep(h: Hasher, chain: seq<Block>, bpm: int, timestamp: string): (next: seq<Block>)
    requires |chain| > 0
    ensures next == chain + [GenerateBlock(h, Tip(chain), bpm, timestamp)]
    ensures Tip(next).index == Tip(chain).index + 1 && Tip(next).prevHash == Tip(chain).hash
  {
    SubmitStep(h, chain, GenerateBlock(h, Tip(chain), bpm, timestamp))
  }

  /** One input line of a connection: a parsed BPM reading with the time at
      which it is handled, or a line that does not parse as a number. */
  datatype Line = Reading(bpm: int, timestamp: string) | NotANumber(text: string)

  /** Handling one line: a reading goes through the accept step, an
      unparsable line is skipped. */
  function LineStep(h: Hasher, chain: seq<Block>, line: Line): (next: seq<Block>)
    requires |chain| > 0
    ensures line.Reading? ==>
      next == chain + [GenerateBlock(h, Tip(chain), line.bpm, line.timestamp)]
    ensures line.NotANumber? ==> next == chain
  {
    match line
    case Reading(bpm, timestamp) => AcceptStep(h, chain, bpm, timestamp)
    case NotANumber(_) => chain
  }

  /** The number of lines that parse as a reading. */
  function Readings(lines: seq<Line>): (n: nat)
    ensures n <= |lines|
  {
    if |lines| == 0 then 0
    else Readings(lines[..|lines| - 1]) + (if lines[|lines| - 1].Reading? then 1 else 0)
  }

  /** The chain after handling `lines` in order: it keeps the starting chain as
      a prefix and gains exactly one block per reading. */
  function Run(h: Hasher, chain: seq<Block>, lines: seq<Line>): (final: seq<Block>)
    requires |chain| > 0
    ensures |final| == |chain| + Readings(lines)
    ensures final[..|chain|] == chain
    decreases |lines|
  {
    if |lines| == 0 then chain
    else LineStep(h, Run(h, chain, lines[..|lines| - 1]), lines[|lines| - 1])
  }

  /** Handling any sequence of lines keeps a linked chain linked. */
  lemma {:induction false} RunPreservesLinkage(h: Hasher, chain: seq<Block>, lines: seq<Line>)
    requires |chain| > 0 && Linked(h, chain)
    ensures Linked(h, Run(h, chain, lines))
  {
    if |lines| > 0 {
      var before := Run(h, chain, lines[..|lines| - 1]);
      RunPreservesLinkage(h, chain, lines[..|lines| - 1]);
      match lines[|lines| - 1]
      case Reading(bpm, timestamp) =>
        SubmitPreservesLinkage(h, before, GenerateBlock(h, Tip(before), bpm, timestamp));
      case NotANumber(_) =>
    }
  }
}
