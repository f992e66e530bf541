/** The basic blocks of one SPIR-V function, reduced to the fields that the control-flow analysis reads. */
module Blocks {

  type BlockId = nat

  /** Returned by the loop query when a block lies in no loop. */
  const NO_DOMINATOR: BlockId := 0xffff_ffff

  datatype Merge = MergeNone | MergeLoop | MergeSelection

  /** Other stands for the terminators without targets that the analysis does not tell apart (Return, Kill, ...). */
  datatype Terminator = Direct | Select | MultiSelect | Unreachable | Other

  datatype Block = Block(
    self: BlockId,
    merge: Merge,
    mergeBlock: BlockId,
    nextBlock: BlockId,
    terminator: Terminator,
    trueBlock: BlockId,
    falseBlock: BlockId,
    defaultBlock: BlockId,
    cases: seq<BlockId>)
  {
    /** The targets of the terminator, in the order in which they are visited. A default block of 0 is absent. */
    function Targets(): seq<BlockId> {
      match terminator
      case Direct => [nextBlock]
      case Select => [trueBlock, falseBlock]
      case MultiSelect => if defaultBlock != 0 then cases + [defaultBlock] else cases
      case Unreachable => []
      case Other => []
    }

    /** What the traversal visits from this block: the merge block first. A selection keeps it in nextBlock. */
    function Children(): seq<BlockId> {
      match merge
      case MergeNone => Targets()
      case MergeLoop => [mergeBlock] + Targets()
      case MergeSelection => [nextBlock] + Targets()
    }

    /** Is v a block that this block has a recorded real edge to, whenever the edge is a forward one? */
    predicate Branches(v: BlockId) {
      v in Targets() || (merge.MergeLoop? && v == mergeBlock)
    }
  }

  datatype Func = Func(entry: BlockId, blocks: map<BlockId, Block>) {
    /** Every id that the analysis looks up is a block; 0 and the sentinel are not blocks. */
    predicate WellFormed() {
      && entry in blocks
      && 0 !in blocks
      && NO_DOMINATOR !in blocks
      && (forall b :: b in blocks ==> blocks[b].self == b)
      && (forall b, c {:trigger c in blocks[b].Children()} :: b in blocks && c in blocks[b].Children() ==> c in blocks)
    }
  }
}
