# Hash-linked heart-rate ledger, modelled in Dafny

The program keeps a chain of blocks. Each block records one BPM (heart-rate)
reading, and the chain starts at a genesis block. A new block carries the next
index, the time it was built, its BPM and its parent's hash. It also carries
its own hash, computed over its index, timestamp, BPM and previous hash. For
each number a client sends, a connection handler builds a block on the tip
and checks it against the tip. It then appends the block and hands the longer
chain to the fork-choice rule, which replaces the stored chain only with a
strictly longer one.

The model has four modules:

- `Blocks` (block.dfy): the block record, the digest, block construction and
  the three-part validity check. The digest is a parameter of type `Hasher`.
  Nothing is assumed about it, not even freedom from collisions.
- `Chain` (chain.dfy): chains as values. It holds the linkage invariant
  `Linked`, fork choice `ChooseChain`, and the submit and accept steps as
  functions. `Run` is the effect of a whole connection's lines.
- `Ledger` (ledger.dfy): the class `Ledger.Ledger`. It holds the stored chain
  as a `seq<Block>` field, and its methods are proved against the `Chain`
  functions.
- `Race` (race.dfy): the finding below.

Three behaviours of the program are easy to misread:

- The genesis block's hash is the empty string, not the digest of its own
  record (`GenesisHashNotComputed`).
- Fork choice compares lengths only and does not re-check the proposal
  (`ChooseChainIgnoresLinkage`).
- There is no difficulty gate and no validator selection. The `difficulty`
  constant and the `Difficulty`/`Nonce` fields are never read. Blocks carry
  the two fields, and `GenerateBlock` leaves them at their zero values.

The genesis literal in main.go:51 lists five of the seven fields, and the
`bcServer` channel is used but never declared. The model takes genesis as
index 0, BPM 0, empty hash and previous hash, and zero values for the rest.

## Model

| member | source | states |
|---|---|---|
| `Blocks.CalculateHash` | main.go:119-125 | the digest of index, timestamp, BPM and previous hash, through the `Hasher` parameter |
| `Blocks.Genesis` | main.go:51 | the genesis block: index 0, the given time, BPM 0, empty hash and previous hash, zero difficulty and empty nonce |
| `Blocks.HashReadsOnlyRecord` | main.go:118-125 | the digest depends on index, timestamp, BPM and previous hash only; blocks that agree on those four fields hash alike, and changing hash, difficulty or nonce leaves the digest unchanged |
| `Blocks.GenesisHashNotComputed` | main.go:51 | genesis has index 0, BPM 0 and empty hash and previous hash; it satisfies the hash equation only if the digest of its record is the empty string |
| `Blocks.GenerateBlock` | main.go:128-138 | the built block has the parent's index plus one, the given BPM and time, and the parent's hash as previous hash; its hash is the digest of its own record; difficulty and nonce stay zero; the result is total, matching the always-nil error |
| `Blocks.IsBlockValid` | main.go:140-152 | true exactly when the index is the tip's plus one, the previous hash is the tip's hash and the stored hash is the digest of the candidate's record |
| `Blocks.GeneratedBlockIsValid` | main.go:128-152 | round trip: a block built on any parent, with any BPM and time, passes validation against that parent |
| `Blocks.TamperDetection` | main.go:141-152 | changing a valid block's index, previous hash or hash makes it invalid; changing its BPM keeps it valid exactly when the digest collides; difficulty and nonce are not checked |
| `Chain.LinkedIndices` | main.go:141-144 | along a chain where every block is valid against its predecessor, block j has index (first index + j) |
| `Chain.LinkedExtend` | main.go:92-94 | appending a candidate valid against the tip keeps a linked chain linked |
| `Chain.StaleCandidateRejected` | main.go:92-94 | a block built on an earlier block of a linked chain fails the index check, and so is rejected, once the tip has moved past that block |
| `Chain.ResubmissionRejected` | main.go:141-144 | any block already in a linked chain, submitted again against the tip, is rejected rather than appended twice |
| `Chain.ChooseChain` | main.go:155-159 | the result is the current or the proposed chain and at least as long as both; a proposal that is not strictly longer leaves the current chain |
| `Chain.ChooseChainIgnoresLinkage` | main.go:155-159 | a longer proposal always wins, so the chain afterwards is linked exactly when the proposal was |
| `Chain.SubmitStep` | main.go:92-95 | a candidate valid against the tip is appended with every earlier block kept; an invalid one leaves the chain as it was |
| `Chain.SubmitPreservesLinkage` | main.go:92-95 | the submit step keeps a linked chain linked |
| `Chain.AcceptStep` | main.go:87-95 | building on the tip and submitting always appends exactly the built block, whose index and previous hash follow the old tip |
| `Chain.LineStep` | main.go:82-95 | a numeric line appends exactly the block built on the tip; an unparsable line leaves the chain unchanged |
| `Chain.Run` | main.go:81-99 | after a connection's lines the starting chain is a prefix, and the chain has gained one block per numeric line |
| `Chain.RunPreservesLinkage` | main.go:81-99 | handling any sequence of lines keeps a linked chain linked |
| `Ledger.Ledger.constructor` | main.go:51-53 | the ledger starts as the genesis block alone, which is trivially linked |
| `Ledger.Ledger.ReplaceChain` | main.go:155-159 | the stored chain becomes the fork-choice result, so it never gets shorter |
| `Ledger.Ledger.Submit` | main.go:92-95 | returns whether the candidate is valid against the tip; if so the chain gains exactly that block, otherwise it is unchanged; linkage is preserved |
| `Ledger.Ledger.Accept` | main.go:87-95 | always accepts, and the chain becomes the old chain plus the block built on the old tip; linkage is preserved |
| `Ledger.Ledger.Serve` | main.go:81-99 | after a connection's lines, the stored chain equals `Run` of the old chain; it gains one block per numeric line and stays linked if it was |
| `Ledger.StaleSubmissionScenario` | main.go:87-95 | a reading of 60 on a fresh ledger yields block 1 linked to the empty genesis hash; a reading of 75 built on the old genesis tip is rejected, and the chain keeps two blocks |
| `Race.UnlockedPair` | main.go:92-94 | two goroutines in the order G1:92, G2:92, G1:93-94, G2:93-94: each candidate valid against the shared tip is appended, regardless of the other |
| `Race.OverlappedAppends` | main.go:92-94 | two goroutines in the order G1:92, G2:92, G1:93, G2:93, G1:94, G2:94: both extend the same old chain, and the second chain is kept only if strictly longer than the first |
| `Race.SerializedPair` | main.go:92-94 | the same two goroutines run one after the other: the second candidate is checked against the tip the first one left |
| `Race.UnlockedPairBreaksLinkage` | main.go:92-94 | in the order G1:92, G2:92, G1:93-94, G2:93-94, two readings built on the same tip both get appended, and the resulting chain is not linked |
| `Race.OverlappedAppendsKeepsFirst` | main.go:92-94 | in the order G1:92, G2:92, G1:93, G2:93, G1:94, G2:94, only the first reading is kept, because the second equally long chain loses fork choice; a linked chain stays linked |
| `Race.SerializedPairAcceptsOne` | main.go:92-94 | with validation and append done as one step, only the first of two blocks built on the same tip is accepted, on every chain; a linked chain stays linked |

## Findings

| source | as written | input that shows it | evidently intended | confidence | as-written member | corrected member |
|---|---|---|---|---|---|---|
| main.go:40 and main.go:92-94 | `mutex` is declared but never locked. Two handler goroutines can both pass `isBlockValid` against the same tip, and then the second appends to the chain the first has just stored | any chain; two connections each send a number, and the handlers run in the order G1:92, G2:92, G1:93-94, G2:93-94 | validation and append form one critical section; the second candidate is rejected as stale | medium, not executed | `Race.UnlockedPair` / `Race.UnlockedPairBreaksLinkage` | `Race.SerializedPair` / `Race.SerializedPairAcceptsOne` |

The rest of the model runs submissions one at a time (`Ledger.Ledger.Submit`),
which is the corrected behaviour.

## Left out

- The TCP listener, environment loading, connection reads and writes, and the
  prompts (main.go:44-75, 98) are I/O.
- Parsing a line into a number (main.go:82-86) is left out. A line is given as
  either a parsed `Reading` or `NotANumber`, which is skipped.
- The goroutines and the `bcServer` channel are left out (main.go:80, 97,
  103-115). So are the 30-second JSON dump and the `spew` debug output. They
  are concurrency and diagnostics. One race is modelled in `Race`, under two
  schedules.
- Other schedules of two or more handlers, and the shared backing array that
  two `append` calls on the same slice (main.go:93) may write to, are not
  modelled. Under that aliasing the second handler's block can overwrite the
  first one's slot in the stored chain.
- SHA-256, hex encoding and integer-to-decimal rendering inside
  `calculateHash` are left out. The digest is the `Hasher` parameter. No
  property that needs collision resistance is claimed.
- Wall-clock time (main.go:51, 132) is a `timestamp` parameter.
- The error branch after `generateBlock` (main.go:88-91) is left out because
  the error is always nil. `GenerateBlock` returns the block alone.
- The aliasing that Go's `append` may create between the old and new slices
  is not modelled, because chains are values.
- GenerateBlock: does not model 64-bit wrap-around of `Index + 1`. Integers
  are unbounded, and wrap-around would need about 2^63 blocks.
- IsBlockValid: does not model 64-bit wrap-around of `newBlock.Index-1`
  (main.go:142). It differs from the program only for a candidate whose index
  is the smallest 64-bit integer.
- Proof-of-work difficulty and validator selection are not implemented in the
  source, so they are not modelled.
