/**
 * The messages of the flashblock stream, and the stateless decisions taken on them:
 * sequence validation, block assembly, the peek classifier and the canonical-parent test.
 */
module Flashblocks {
  import opened Wrappers

  /** A 32-byte hash. Only equality matters; no function producing one is taken to be injective. */
  type Hash = nat

  const ZERO_HASH: Hash := 0

  /** An encoded transaction, opaque to this model. */
  type Transaction = nat

  datatype FlashblockId = FlashblockId(block: nat, index: nat)

  /** Identifies "no predecessor link"; older builders leave the link out of the stream. */
  const UNLINKED := FlashblockId(0, 0)

  /** The block-wide data carried by the first flashblock; `attributes` is the part never inspected here. */
  datatype Base = Base(number: nat, parentHash: Hash, timestamp: nat, attributes: nat)

  /** `commitments` stands for receipts root, logs bloom, gas used and withdrawals root. */
  datatype Diff = Diff(stateRoot: Hash, commitments: nat, blockHash: Hash, transactions: seq<Transaction>)

  datatype Flashblock = Flashblock(
    payloadId: nat, block: nat, index: nat, prev: FlashblockId, base: Option<Base>, diff: Diff)

  /** An assembled header: everything the block hash is computed from. */
  datatype Header = Header(base: Base, transactions: seq<Transaction>, stateRoot: Hash, commitments: nat)

  /** Saturating decrement: block zero is its own parent. */
  function Parent(block: nat): nat {
    if block == 0 then 0 else block - 1
  }

  function ParentHash(fb: Flashblock): Hash {
    if fb.base.Some? then fb.base.value.parentHash else ZERO_HASH
  }

  /** All transactions of a run of flashblocks, in order. */
  function Transactions(fbs: seq<Flashblock>): seq<Transaction> {
    if fbs == [] then [] else
      Transactions(fbs[..|fbs| - 1]) + fbs[|fbs| - 1].diff.transactions
  }

  lemma TransactionsOne(fb: Flashblock)
    ensures Transactions([fb]) == fb.diff.transactions
  {
    assert [fb][..0] == [];
  }

  lemma {:induction false} TransactionsConcat(a: seq<Flashblock>, b: seq<Flashblock>)
    ensures Transactions(a + b) == Transactions(a) + Transactions(b)
  {
    if b == [] {
      assert a + b == a;
    } else {
      var front := b[..|b| - 1];
      assert (a + b)[..|a + b| - 1] == a + front;
      TransactionsConcat(a, front);
    }
  }

  // ---------------------------------------------------------------- sequence validation

  datatype Verdict =
    | NextInSequence
    | FirstOfNextBlock
    | Duplicate
    | NonSequentialGap
    | InvalidNewBlockIndex
    | NonSequentialPredecessor

  /** Places an incoming flashblock relative to the latest accepted one. */
  function Validate(latestBlock: nat, latestIndex: nat, fb: Flashblock): Verdict {
    if fb.block == latestBlock && fb.index == latestIndex then
      Duplicate
    else if fb.prev != UNLINKED && fb.prev != FlashblockId(latestBlock, latestIndex) then
      NonSequentialPredecessor
    else if fb.block == latestBlock && fb.index == latestIndex + 1 then
      NextInSequence
    else if fb.block == latestBlock + 1 && fb.index == 0 then
      FirstOfNextBlock
    else if fb.block == latestBlock then
      NonSequentialGap
    else
      InvalidNewBlockIndex
  }

  // ---------------------------------------------------------------- assembly

  /**
   * The header of a block assembled from its flashblocks: block-wide fields from the first, commitments
   * from the last, transactions from all. `converts` is the payload-to-block conversion, which may reject.
   */
  function Assemble(converts: Header -> bool, fbs: seq<Flashblock>): Option<Header> {
    if fbs == [] || fbs[0].base.None? || fbs[0].base.value.number == 0 then
      None
    else
      var last := fbs[|fbs| - 1].diff;
      var header := Header(fbs[0].base.value, Transactions(fbs), last.stateRoot, last.commitments);
      if converts(header) then Some(header) else None
  }

  /** The header `fbs` stand for: base and number from the first, root and commitments from the last, all transactions. */
  ghost predicate Assembles(converts: Header -> bool, fbs: seq<Flashblock>, h: Header) {
    && fbs != [] && fbs[0].base.Some? && fbs[0].base.value.number > 0
    && h.base == fbs[0].base.value && h.transactions == Transactions(fbs)
    && h.stateRoot == fbs[|fbs| - 1].diff.stateRoot && h.commitments == fbs[|fbs| - 1].diff.commitments
    && converts(h)
  }

  lemma AssembleLaw(converts: Header -> bool, fbs: seq<Flashblock>, h: Header)
    ensures Assemble(converts, fbs) == Some(h) <==> Assembles(converts, fbs, h)
  {
  }

  // ---------------------------------------------------------------- ingress classification

  datatype PeekVerdict = PeekVerdict(squash: bool, finalHash: Option<Hash>)

  /**
   * Classifies a flashblock against the next queued message. At most one of the two outputs is active,
   * and a base is never squashed by the peek.
   */
  function Classify(current: Flashblock, peek: Option<Flashblock>): (v: PeekVerdict)
    ensures !(v.squash && v.finalHash.Some?)
    ensures v.squash ==> current.index > 0
  {
    if peek.None? then
      PeekVerdict(false, None)
    else if peek.value.block == current.block && current.index > 0 then
      PeekVerdict(true, None)
    else if peek.value.block == current.block + 1 && peek.value.index == 0 && peek.value.base.Some? then
      PeekVerdict(false, Some(peek.value.base.value.parentHash))
    else
      PeekVerdict(false, None)
  }

  /** False only when the canonical hash of the base's parent is known and differs from its parent hash. */
  predicate ParentMatchesCanonical(canonical: Option<(nat, Hash)>, block: nat, parentHash: Hash) {
    canonical.Some? && canonical.value.0 == Parent(block) ==> canonical.value.1 == parentHash
  }
}
