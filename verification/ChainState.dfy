/** The node's chain state: the value of module `Chains` with every ledger state cached and
    updated incrementally (`lez/chain_state/src/chain.rs`). */
module ChainStates {
  import opened Prelude
  import opened LedgerState
  import opened Blocks
  import opened Applying
  import opened Chains

  /** First held entry at or above height `id`: where an adopted competitor reorgs the head. */
  function ReorgPosition(head: seq<HeadEntry>, id: nat): (r: Option<nat>)
    ensures r.Some? ==> r.value < |head| && head[r.value].block.header.blockId >= id
    ensures forall i :: 0 <= i < (if r.Some? then r.value else |head|) ==> head[i].block.header.blockId < id
  {
    if head == [] then None
    else if head[0].block.header.blockId >= id then Some(0)
    else
      match ReorgPosition(head[1..], id)
      case None => None
      case Some(i) => Some(i + 1)
  }

  /** With consecutive ids the reorg point is the distance from the first id. */
  lemma {:induction false} ReorgPoint(head: seq<HeadEntry>, first: nat, id: nat)
    requires forall i :: 0 <= i < |head| ==> head[i].block.header.blockId == first + i
    ensures var k := ReorgPosition(head, id);
            (if k.Some? then k.value else |head|) == if id <= first then 0 else Min(id - first, |head|)
  {
    var k := ReorgPosition(head, id);
    var cut := if k.Some? then k.value else |head|;
    if cut > 0 {
      assert head[cut - 1].block.header.blockId < id;
    }
  }

  /** The reorg point cuts the head exactly after the entries below the competitor. */
  lemma {:induction false} ReorgKeepsBelow(l: Ledger, c: Chain, id: nat)
    requires WellFormed(l, c)
    ensures var k := ReorgPosition(c.head, id);
            Below(c.head, id) == c.head[..if k.Some? then k.value else |c.head|]
  {
    HeadIdsContiguous(l, c);
    var first := NextId(FinalPoint(l, c).tip);
    ReorgPoint(c.head, first, id);
    BelowIsPrefix(c.head, first, id);
  }

  class ChainState {
    const ledger: Ledger

    var finalState: State
    var finalTip: Option<Tip>
    var finalStall: Option<StallReason>
    var headState: State
    var headBlocks: seq<HeadEntry>

    ghost var base: Point
    ghost var finalized: seq<Block>

    ghost function Value(): Chain
      reads this
    {
      Chain(base, finalized, headBlocks, finalStall)
    }

    /** The caches hold what replaying the block lists gives. */
    ghost predicate Valid()
      reads this
    {
      && WellFormed(ledger, Value())
      && FinalPoint(ledger, Value()) == Point(finalState, finalTip)
      && HeadPoint(ledger, Value()).state == headState
    }

    constructor FromFinal(ledger: Ledger, state: State, tip: Option<Tip>)
      ensures Valid() && this.ledger == ledger
      ensures Value() == Chains.FromFinal(Point(state, tip))
    {
      this.ledger := ledger;
      finalState, finalTip, finalStall := state, tip, None;
      headState, headBlocks := state, [];
      base, finalized := Point(state, tip), [];
    }

    function HeadTip(): (tip: Option<Tip>)
      requires Valid()
      reads this
      ensures tip == HeadPoint(ledger, Value()).tip
    {
      HeadIdsContiguous(ledger, Value());
      if headBlocks != [] then Some(TipOf(headBlocks[|headBlocks| - 1].block)) else finalTip
    }

    /** State and tip after replaying `headBlocks[..count]` on the final tier. The replay cannot
        fail: the original's `expect` is the assertion in the loop. */
    method ReplayHeadPrefix(count: nat) returns (state: State, tip: Option<Tip>)
      requires WellFormed(ledger, Value()) && FinalPoint(ledger, Value()) == Point(finalState, finalTip)
      requires count <= |headBlocks|
      ensures Replay(ledger, Point(finalState, finalTip), BlocksOf(headBlocks[..count])) == Some(Point(state, tip))
    {
      ghost var blocks := BlocksOf(headBlocks);
      var scratch := new V03State(finalState);
      tip := finalTip;
      for i := 0 to count
        invariant Replay(ledger, Point(finalState, finalTip), blocks[..i]) == Some(Point(scratch.contents, tip))
      {
        ReplayStep(ledger, Point(finalState, finalTip), blocks, i, Point(scratch.contents, tip));
        var error := ApplyBlockInPlace(ledger, tip, headBlocks[i].block, scratch);
        assert error.None?;
        tip := Some(TipOf(headBlocks[i].block));
      }
      BlocksOfSlices(headBlocks, count);
      state := scratch.contents;
    }

    method RederiveHead()
      requires WellFormed(ledger, Value()) && FinalPoint(ledger, Value()) == Point(finalState, finalTip)
      modifies this`headState
      ensures Valid()
    {
      var state, _ := ReplayHeadPrefix(|headBlocks|);
      assert headBlocks[..|headBlocks|] == headBlocks;
      headState := state;
    }

    /** Where an adopted block at height `id` lands: the current head if it extends it, otherwise
        the replayed prefix below it. */
    method LandingPoint(id: nat, reorgAt: Option<nat>) returns (state: State, tip: Option<Tip>)
      requires Valid() && reorgAt == ReorgPosition(headBlocks, id)
      ensures Replay(ledger, Point(finalState, finalTip), BlocksOf(Below(headBlocks, id))) == Some(Point(state, tip))
    {
      hide Replay;
      ReorgKeepsBelow(ledger, Value(), id);
      if reorgAt.None? {
        assert headBlocks[..|headBlocks|] == headBlocks;
        return headState, HeadTip();
      }
      state, tip := ReplayHeadPrefix(reorgAt.value);
    }

    method ApplyAdopted(msg: MsgId, block: Block) returns (outcome: AcceptOutcome)
      requires Valid()
      modifies this`headState, this`headBlocks
      ensures Valid()
      ensures Stepped(Value(), outcome) == Adopt(ledger, old(Value()), msg, block)
    {
      hide Replay, ApplyBlock;
      if HeadPosition(headBlocks, msg, block).Some? {
        return AlreadyApplied;
      }
      if finalTip.Some? && block.header.blockId <= finalTip.value.blockId {
        return AlreadyApplied;
      }
      ghost var c := Value();
      AdoptWellFormed(ledger, c, msg, block);
      ReorgKeepsBelow(ledger, c, block.header.blockId);

      var reorgAt := ReorgPosition(headBlocks, block.header.blockId);
      var start, tip := LandingPoint(block.header.blockId, reorgAt);
      var scratch := new V03State(start);
      var error := ApplyBlockInPlace(ledger, tip, block, scratch);
      if error.Some? {
        return Parked(error.value);
      }
      if reorgAt.Some? {
        headBlocks := headBlocks[..reorgAt.value];
      }
      assert c.head[..|c.head|] == c.head;
      assert headBlocks == Below(c.head, block.header.blockId);
      headState := scratch.contents;
      headBlocks := headBlocks + [HeadEntry(msg, block)];
      assert Stepped(Value(), Applied) == Adopt(ledger, c, msg, block);
      outcome := Applied;
    }

    method ApplyProduced(msg: MsgId, block: Block) returns (outcome: AcceptOutcome)
      requires Valid()
      modifies this`headState, this`headBlocks
      ensures Valid()
      ensures Stepped(Value(), outcome) == Produce(ledger, old(Value()), msg, block)
    {
      var tip := HeadTip();
      if tip.Some? && block.header.blockId <= tip.value.blockId {
        return AlreadyApplied;
      }
      outcome := ApplyAdopted(msg, block);
    }

    method TruncateHead(k: nat)
      requires Valid() && k <= |headBlocks|
      modifies this`headState, this`headBlocks
      ensures Valid()
      ensures Value() == old(Value()).(head := old(headBlocks)[..k])
    {
      TruncateWellFormed(ledger, Value(), k);
      headBlocks := headBlocks[..k];
      RederiveHead();
    }

    method RevertOrphaned(msg: MsgId, block: Block)
      requires Valid()
      modifies this`headState, this`headBlocks
      ensures Valid()
      ensures Value() == RevertOrphan(old(Value()), msg, block)
    {
      var position := HeadPosition(headBlocks, msg, block);
      if position.Some? {
        TruncateHead(position.value);
      }
    }

    method ApplyChannelUpdate(orphaned: seq<Message>, adopted: seq<Message>) returns (outcomes: seq<AcceptOutcome>)
      requires Valid()
      modifies this`headState, this`headBlocks
      ensures Valid()
      ensures Updated(Value(), outcomes) == ChannelUpdate(ledger, old(Value()), orphaned, adopted)
    {
      hide Replay, Adopt;
      var earliest := EarliestOrphan(headBlocks, orphaned);
      if earliest.Some? {
        TruncateHead(earliest.value);
      }
      ghost var reverted := Value();
      outcomes := [];
      for i := 0 to |adopted|
        invariant Valid() && WellFormed(ledger, reverted)
        invariant Updated(Value(), outcomes) == AdoptAll(ledger, reverted, adopted[..i])
      {
        assert adopted[..i + 1][..i] == adopted[..i];
        var outcome := ApplyAdopted(adopted[i].msg, adopted[i].block);
        outcomes := outcomes + [outcome];
      }
      assert adopted[..|adopted|] == adopted;
    }

    /** On an error the head list is kept but the head state is whatever the failed application
        left, so validity is promised on success only. */
    method RestoreHeadBlock(block: Block) returns (error: Option<BlockIngestError>)
      requires Valid()
      modifies this`headState, this`headBlocks
      ensures error.None? <==> Restore(ledger, old(Value()), block).Some?
      ensures error.None? ==> Valid() && Some(Value()) == Restore(ledger, old(Value()), block)
      ensures error.Some? ==> Value() == old(Value())
      ensures Attempt(headState, error) == ApplyBlock(ledger, old(HeadTip()), block, old(headState))
    {
      ghost var c := Value();
      var cell := new V03State(headState);
      var tip := HeadTip();
      error := ApplyBlockInPlace(ledger, tip, block, cell);
      headState := cell.contents;
      if error.None? {
        RestoreWellFormed(ledger, c, block);
        headBlocks := headBlocks + [HeadEntry(block.header.hash, block)];
      }
    }

    method ApplyFinalized(msg: MsgId, block: Block, slot: Slot) returns (outcome: AcceptOutcome)
      requires Valid()
      modifies this
      ensures Valid()
      ensures Stepped(Value(), outcome) == FinalizeBlock(ledger, old(Value()), msg, block, slot)
    {
      hide Replay, FinalizeDirect;
      var held := HeadPosition(headBlocks, msg, block);
      if held.Some? {
        FinalizeThrough(held.value);
        return Applied;
      }
      var parent := PositionByHash(headBlocks, block.header.prevBlockHash);
      if parent.Some? {
        FinalizeThrough(parent.value);
      }
      outcome := ApplyFinalizedDirect(block, slot);
    }

    /** Drains `headBlocks[..index + 1]` into the final tier. */
    method FinalizeThrough(index: nat)
      requires Valid() && index < |headBlocks|
      modifies this
      ensures Valid()
      ensures Value() == FinalizePrefix(old(Value()), index + 1)
    {
      hide Replay;
      ghost var c := Value();
      FinalizePrefixKeepsHead(ledger, c, index + 1);
      BlocksOfSlices(c.head, index + 1);
      ReplayPrefix(ledger, Point(finalState, finalTip), BlocksOf(c.head), index + 1);
      ReplayConcat(ledger, base, finalized, BlocksOf(c.head[..index + 1]));
      var drained := headBlocks[..index + 1];
      headBlocks := headBlocks[index + 1..];
      AdvanceFinal(drained);
      finalized := finalized + BlocksOf(drained);
      finalStall := None;
    }

    /** Applies drained entries to the final tier. They replay there: the original's `expect` is
        the assertion in the loop. */
    method AdvanceFinal(drained: seq<HeadEntry>)
      requires Replay(ledger, Point(finalState, finalTip), BlocksOf(drained)).Some?
      modifies this`finalState, this`finalTip
      ensures Some(Point(finalState, finalTip)) == Replay(ledger, old(Point(finalState, finalTip)), BlocksOf(drained))
    {
      ghost var blocks := BlocksOf(drained);
      ghost var start := Point(finalState, finalTip);
      for i := 0 to |drained|
        invariant Replay(ledger, start, blocks[..i]) == Some(Point(finalState, finalTip))
      {
        ReplayStep(ledger, start, blocks, i, Point(finalState, finalTip));
        var cell := new V03State(finalState);
        var error := ApplyBlockInPlace(ledger, finalTip, drained[i].block, cell);
        assert error.None?;
        finalState, finalTip := cell.contents, Some(TipOf(drained[i].block));
      }
      assert blocks[..|drained|] == blocks;
    }

    method ApplyFinalizedDirect(block: Block, slot: Slot) returns (outcome: AcceptOutcome)
      requires Valid()
      modifies this
      ensures Valid()
      ensures Stepped(Value(), outcome) == FinalizeDirect(ledger, old(Value()), block, slot)
    {
      if finalTip.Some? && (block.header.blockId < finalTip.value.blockId
                            || (block.header.blockId == finalTip.value.blockId && block.header.hash == finalTip.value.hash)) {
        return AlreadyApplied;
      }
      FinalizeDirectWellFormed(ledger, Value(), block, slot);
      ReplaySnoc(ledger, base, finalized, block);
      var scratch := new V03State(finalState);
      var error := ApplyBlockInPlace(ledger, finalTip, block, scratch);
      if error.Some? {
        finalStall := Some(RecordStall(finalStall, block, slot, error.value));
        return Parked(error.value);
      }
      finalState, finalTip, finalStall := scratch.contents, Some(TipOf(block)), None;
      headBlocks, headState := [], finalState;
      finalized := finalized + [block];
      outcome := Applied;
    }
  }
}
