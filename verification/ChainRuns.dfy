/** The in-place chain state over whole runs of events. */
module ChainRuns {
  import opened Prelude
  import opened Blocks
  import opened Chains
  import opened ChainStates
  import opened ChainEvents

  /** One event; `None` is the failed restore that the caller treats as fatal. */
  method Handle(state: ChainState, e: Event) returns (outcomes: Option<seq<AcceptOutcome>>)
    requires state.Valid()
    modifies state
    ensures outcomes.Some? <==> Step(state.ledger, old(state.Value()), e).Some?
    ensures outcomes.Some? ==> state.Valid() && Some(Updated(state.Value(), outcomes.value)) == Step(state.ledger, old(state.Value()), e)
  {
    hide Adopt, Produce, RevertOrphan, ChannelUpdate, FinalizeBlock, Restore;
    match e
    case AdoptedEvent(msg, block) =>
      var outcome := state.ApplyAdopted(msg, block);
      outcomes := Some([outcome]);
    case ProducedEvent(msg, block) =>
      var outcome := state.ApplyProduced(msg, block);
      outcomes := Some([outcome]);
    case OrphanedEvent(msg, block) =>
      state.RevertOrphaned(msg, block);
      outcomes := Some([]);
    case UpdateEvent(orphaned, adopted) =>
      var all := state.ApplyChannelUpdate(orphaned, adopted);
      outcomes := Some(all);
    case FinalizedEvent(msg, block, slot) =>
      var outcome := state.ApplyFinalized(msg, block, slot);
      outcomes := Some([outcome]);
    case RestoredEvent(block) =>
      var error := state.RestoreHeadBlock(block);
      outcomes := if error.None? then Some([]) else None;
  }

  /** After every run of events the cached head state and tip are those of the final tier replayed
      through the held blocks, whose ids count up from the final tip. */
  method HandleAll(state: ChainState, es: seq<Event>) returns (outcomes: Option<seq<seq<AcceptOutcome>>>)
    requires state.Valid()
    modifies state
    ensures outcomes.Some? <==> Run(state.ledger, old(state.Value()), es).Some?
    ensures outcomes.Some? ==>
              && state.Valid() && Some(RunResult(state.Value(), outcomes.value)) == Run(state.ledger, old(state.Value()), es)
              && Replay(state.ledger, Point(state.finalState, state.finalTip), BlocksOf(state.headBlocks))
                 == Some(Point(state.headState, state.HeadTip()))
              && forall i :: 0 <= i < |state.headBlocks| ==> state.headBlocks[i].block.header.blockId == NextId(state.finalTip) + i
  {
    hide Step, Replay;
    var done := [];
    for i := 0 to |es|
      invariant state.Valid()
      invariant Run(state.ledger, old(state.Value()), es[..i]) == Some(RunResult(state.Value(), done))
    {
      assert es[..i + 1][..i] == es[..i];
      var step := Handle(state, es[i]);
      if step.None? {
        RunStops(state.ledger, old(state.Value()), es, i + 1);
        return None;
      }
      done := done + [step.value];
    }
    assert es[..|es|] == es;
    HeadIdsContiguous(state.ledger, state.Value());
    outcomes := Some(done);
  }

  lemma {:induction false} RunStops(l: Ledger, c: Chain, es: seq<Event>, n: nat)
    requires WellFormed(l, c) && n <= |es| && Run(l, c, es[..n]).None?
    ensures Run(l, c, es).None?
    decreases |es|
  {
    hide Step;
    if n < |es| {
      assert es[..|es| - 1][..n] == es[..n];
      RunStops(l, c, es[..|es| - 1], n);
    } else {
      assert es[..n] == es;
    }
  }
}
