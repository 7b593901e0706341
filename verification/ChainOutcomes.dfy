/** Exactly when each chain event applies, parks or is taken for a re-delivery, and what it leaves. */
module ChainOutcomes {
  import opened Prelude
  import opened LedgerState
  import opened Blocks
  import opened Applying
  import opened Chains
  import opened ChainEvents
  import opened LedgerEffects

  /** The ledger and tip after the first `k` held blocks. */
  ghost function PointAt(l: Ledger, c: Chain, k: nat): Point
    requires WellFormed(l, c) && k <= |c.head|
  {
    BlocksOfSlices(c.head, k);
    ReplayPrefix(l, FinalPoint(l, c), BlocksOf(c.head), k);
    Replay(l, FinalPoint(l, c), BlocksOf(c.head[..k])).value
  }

  /** Its tip is the last of those blocks, or the final tip. */
  lemma {:induction false} PointAtTip(l: Ledger, c: Chain, k: nat)
    requires WellFormed(l, c) && k <= |c.head|
    ensures PointAt(l, c, k).tip == if k == 0 then FinalPoint(l, c).tip else Some(TipOf(c.head[k - 1].block))
    ensures k == |c.head| ==> PointAt(l, c, k) == HeadPoint(l, c)
    ensures k == 0 ==> PointAt(l, c, k) == FinalPoint(l, c)
  {
    hide Replay;
    BlocksOfSlices(c.head, k);
    ReplayPrefix(l, FinalPoint(l, c), BlocksOf(c.head), k);
    ReplayTip(l, FinalPoint(l, c), BlocksOf(c.head[..k]));
    ReplayNothing(l, FinalPoint(l, c));
    if k == |c.head| {
      assert c.head[..k] == c.head;
    }
  }

  lemma {:induction false} ReplayNothing(l: Ledger, p: Point)
    ensures Replay(l, p, []) == Some(p) && BlocksOf([]) == []
  {
  }

  // ---- adopted and produced blocks ----

  /** The entries below the block are the first `k`. */
  ghost predicate CutAt(head: seq<HeadEntry>, b: Block, k: nat)
  {
    && k <= |head|
    && (forall i :: 0 <= i < k ==> head[i].block.header.blockId < b.header.blockId)
    && (forall i :: k <= i < |head| ==> head[i].block.header.blockId >= b.header.blockId)
  }

  /** At or below the tip. */
  predicate Reached(tip: Option<Tip>, b: Block)
  {
    tip.Some? && b.header.blockId <= tip.value.blockId
  }

  /** Adoption, judged on the entries it keeps. */
  lemma {:induction false} AdoptJudgedAt(l: Ledger, c: Chain, msg: MsgId, b: Block, k: nat)
    requires WellFormed(l, c) && k <= |c.head| && Below(c.head, b.header.blockId) == c.head[..k]
    ensures var step, p := Adopt(l, c, msg, b), PointAt(l, c, k);
            var skipped := NamedIn(c.head, msg, b) || Reached(FinalPoint(l, c).tip, b);
            && (step.outcome.AlreadyApplied? <==> skipped)
            && (step.outcome.Applied? <==> !skipped && Applies(l, p, b))
            && (forall err :: step.outcome == Parked(err) <==> !skipped && Refused(l, p, b, err))
            && step.chain == if step.outcome.Applied? then c.(head := c.head[..k] + [HeadEntry(msg, b)]) else c
  {
    var p := PointAt(l, c, k);
    hide Replay, ApplyBlock, Applies, Refused;
    ExtendIff(l, p, b, p);
    forall err
      ensures ApplyBlock(l, p.tip, b, p.state).error == Some(err) <==> Refused(l, p, b, err)
    {
      RefusedIff(l, p, b, err);
    }
  }

  /** Exactly when an adopted block applies, parks, and is taken for a re-delivery. It is judged on the
      held blocks below it, and applying cuts the head there. */
  lemma {:induction false} AdoptOutcomeIff(l: Ledger, c: Chain, msg: MsgId, b: Block) returns (k: nat)
    requires WellFormed(l, c)
    ensures CutAt(c.head, b, k)
    ensures var step, p, named := Adopt(l, c, msg, b), PointAt(l, c, k), NamedIn(c.head, msg, b);
            && (step.outcome.AlreadyApplied? <==> named || Reached(FinalPoint(l, c).tip, b))
            && (step.outcome.Applied? <==> !named && Applies(l, p, b))
            && (forall err :: step.outcome == Parked(err) <==> !named && !Reached(FinalPoint(l, c).tip, b) && Refused(l, p, b, err))
            && step.chain == if step.outcome.Applied? then c.(head := c.head[..k] + [HeadEntry(msg, b)]) else c
  {
    k := ReorgParent(l, c, b.header.blockId);
    AdoptJudgedAt(l, c, msg, b, k);
    hide Adopt, PointAt, WellFormed, FinalPoint, Refused, NamedIn, Below, Applies;
    if Reached(FinalPoint(l, c).tip, b) {
      ReachedDoesNotApply(l, c, b, k);
    }
  }

  lemma {:induction false} ReachedDoesNotApply(l: Ledger, c: Chain, b: Block, k: nat)
    requires WellFormed(l, c) && CutAt(c.head, b, k) && Reached(FinalPoint(l, c).tip, b)
    ensures !Applies(l, PointAt(l, c, k), b)
  {
    PointAtTip(l, c, k);
    HeadIdsContiguous(l, c);
    hide PointAt, WellFormed, FinalPoint, HeadPoint, Computes, WellClocked;
  }

  lemma {:induction false} AllBelow(head: seq<HeadEntry>, id: nat)
    requires forall i :: 0 <= i < |head| ==> head[i].block.header.blockId < id
    ensures Below(head, id) == head
    decreases |head|
  {
    if head != [] {
      AllBelow(head[1..], id);
    }
  }

  lemma {:induction false} AboveHeadIsNew(l: Ledger, c: Chain, msg: MsgId, b: Block)
    requires WellFormed(l, c) && !Reached(HeadPoint(l, c).tip, b)
    ensures Below(c.head, b.header.blockId) == c.head && !NamedIn(c.head, msg, b) && !Reached(FinalPoint(l, c).tip, b)
  {
    HeadIdsContiguous(l, c);
    hide WellFormed, HeadPoint, FinalPoint;
    AllBelow(c.head, b.header.blockId);
  }

  /** Exactly when a produced block applies, parks, and is dropped as stale: it is judged on the whole
      head, and applying only extends it. */
  lemma {:induction false} ProduceOutcomeIff(l: Ledger, c: Chain, msg: MsgId, b: Block)
    requires WellFormed(l, c)
    ensures var step, p := Produce(l, c, msg, b), HeadPoint(l, c);
            && (step.outcome.AlreadyApplied? <==> Reached(p.tip, b))
            && (step.outcome.Applied? <==> Applies(l, p, b))
            && (forall err :: step.outcome == Parked(err) <==> !Reached(p.tip, b) && Refused(l, p, b, err))
            && step.chain == if step.outcome.Applied? then c.(head := c.head + [HeadEntry(msg, b)]) else c
  {
    hide Adopt, Refused, ApplyBlock, Replay;
    var p := HeadPoint(l, c);
    if Reached(p.tip, b) {
      assert !Applies(l, p, b);
    } else {
      AboveHeadIsNew(l, c, msg, b);
      assert c.head[..|c.head|] == c.head;
      AdoptJudgedAt(l, c, msg, b, |c.head|);
      PointAtTip(l, c, |c.head|);
    }
  }

  /** A persisted block is restored exactly when it applies to the head, and extends it. */
  lemma {:induction false} RestoreIff(l: Ledger, c: Chain, b: Block)
    requires WellFormed(l, c)
    ensures Restore(l, c, b).Some? <==> Applies(l, HeadPoint(l, c), b)
    ensures Restore(l, c, b).Some? ==> Restore(l, c, b).value == c.(head := c.head + [HeadEntry(b.header.hash, b)])
  {
    hide Extend, Applies, HeadPoint;
    ExtendIff(l, HeadPoint(l, c), b, HeadPoint(l, c));
  }

  // ---- orphans and channel updates ----

  /** The head after a revert is the longest beginning of it that no orphan names an entry of. */
  lemma {:induction false} RevertDropsExactly(c: Chain, orphans: seq<Message>) returns (k: nat)
    ensures k <= |c.head| && RevertAll(c, orphans) == c.(head := c.head[..k])
    ensures forall i, m :: 0 <= i < k && m in orphans ==> !Names(c.head[i], m.msg, m.block)
    ensures k < |c.head| ==> exists m :: m in orphans && Names(c.head[k], m.msg, m.block)
  {
    hide EarliestOrphan, HeadPosition;
    var p := EarliestOrphan(c.head, orphans);
    k := if p.Some? then p.value else |c.head|;
    assert p.None? ==> c.head[..k] == c.head;
    forall i, m | 0 <= i < k && m in orphans
      ensures !Names(c.head[i], m.msg, m.block)
    {
      assert PositionOf(c.head, m).Some? ==> p.Some? && p.value <= PositionOf(c.head, m).value;
    }
    if p.Some? {
      var m :| m in orphans && PositionOf(c.head, m) == p;
      assert Names(c.head[k], m.msg, m.block);
    }
  }

  function OrphanEvents(orphans: seq<Message>): seq<Event>
  {
    Mapped((m: Message) => OrphanedEvent(m.msg, m.block), orphans)
  }

  function AdoptEvents(adopted: seq<Message>): seq<Event>
  {
    Mapped((m: Message) => AdoptedEvent(m.msg, m.block), adopted)
  }

  /** The outcomes of a run in one list. */
  function Flat(outcomes: seq<seq<AcceptOutcome>>): seq<AcceptOutcome>
  {
    if outcomes == [] then [] else Flat(outcomes[..|outcomes| - 1]) + outcomes[|outcomes| - 1]
  }

  lemma {:induction false} FlatSnoc(outcomes: seq<seq<AcceptOutcome>>, last: seq<AcceptOutcome>)
    ensures Flat(outcomes + [last]) == Flat(outcomes) + last
  {
    assert (outcomes + [last])[..|outcomes|] == outcomes;
  }

  lemma {:induction false} RunSnoc(l: Ledger, c: Chain, es: seq<Event>, e: Event)
    requires WellFormed(l, c) && Run(l, c, es).Some? && Step(l, Run(l, c, es).value.chain, e).Some?
    ensures var u := Step(l, Run(l, c, es).value.chain, e).value;
            Run(l, c, es + [e]) == Some(RunResult(u.chain, Run(l, c, es).value.outcomes + [u.outcomes]))
  {
    hide Step;
    assert (es + [e])[..|es|] == es;
  }

  lemma {:induction false} StepOrphan(l: Ledger, c: Chain, m: Message)
    requires WellFormed(l, c)
    ensures Step(l, c, OrphanedEvent(m.msg, m.block)) == Some(Updated(RevertOrphan(c, m.msg, m.block), []))
  {
    hide Replay, RevertOrphan;
  }

  lemma {:induction false} NoOrphans(c: Chain)
    ensures OrphanEvents([]) == [] && RevertEach(c, []) == c && Flat([]) == []
  {
  }

  lemma {:induction false} OrphanEventsSnoc(orphans: seq<Message>, m: Message)
    ensures OrphanEvents(orphans + [m]) == OrphanEvents(orphans) + [OrphanedEvent(m.msg, m.block)]
  {
  }

  lemma {:induction false} AdoptEventsSnoc(adopted: seq<Message>, m: Message)
    ensures AdoptEvents(adopted + [m]) == AdoptEvents(adopted) + [AdoptedEvent(m.msg, m.block)]
  {
  }

  /** Reverting the orphans one event at a time is the batched revert. */
  lemma {:induction false} OrphanRun(l: Ledger, c: Chain, orphans: seq<Message>)
    requires WellFormed(l, c)
    ensures var r := Run(l, c, OrphanEvents(orphans));
            r.Some? && r.value.chain == RevertEach(c, orphans) && Flat(r.value.outcomes) == []
    decreases |orphans|
  {
    hide RevertEach, OrphanEvents, WellFormed, RevertOrphan, Step, Flat;
    if orphans == [] {
      NoOrphans(c);
    } else {
      hide Run;
      var init, m := orphans[..|orphans| - 1], orphans[|orphans| - 1];
      OrphanRun(l, c, init);
      RevertEachSnoc(c, init, m);
      assert orphans == init + [m];
      OrphanEventsSnoc(init, m);
      var before := Run(l, c, OrphanEvents(init)).value;
      StepOrphan(l, before.chain, m);
      RunSnoc(l, c, OrphanEvents(init), OrphanedEvent(m.msg, m.block));
      FlatSnoc(before.outcomes, []);
    }
  }

  lemma {:induction false} RevertEachSnoc(c: Chain, orphans: seq<Message>, m: Message)
    ensures RevertEach(c, orphans + [m]) == RevertOrphan(RevertEach(c, orphans), m.msg, m.block)
    decreases |orphans|
  {
    hide RevertOrphan;
    if orphans == [] {
      assert (orphans + [m])[1..] == [];
    } else {
      assert (orphans + [m])[1..] == orphans[1..] + [m];
      RevertEachSnoc(RevertOrphan(c, orphans[0].msg, orphans[0].block), orphans[1..], m);
    }
  }

  /** One channel update is its orphan events followed by its adoption events, outcome for outcome. */
  lemma {:induction false} UpdateIsEvents(l: Ledger, c: Chain, orphaned: seq<Message>, adopted: seq<Message>)
    requires WellFormed(l, c)
    ensures var r := Run(l, c, OrphanEvents(orphaned) + AdoptEvents(adopted));
            var u := ChannelUpdate(l, c, orphaned, adopted);
            r.Some? && r.value.chain == u.chain && Flat(r.value.outcomes) == u.outcomes
    decreases |adopted|
  {
    hide OrphanEvents, AdoptEvents, ChannelUpdate, Run, Adopt, Step, WellFormed, Flat;
    var orphans := OrphanEvents(orphaned);
    if adopted == [] {
      OrphanRun(l, c, orphaned);
      OnlyOrphans(l, c, orphaned);
      assert orphans + AdoptEvents([]) == orphans;
    } else {
      var init, m := adopted[..|adopted| - 1], adopted[|adopted| - 1];
      UpdateIsEvents(l, c, orphaned, init);
      AdoptOneMore(l, c, orphaned, adopted);
      AdoptEventsSnoc(init, m);
      var es, e := orphans + AdoptEvents(init), AdoptedEvent(m.msg, m.block);
      assert adopted == init + [m];
      assert orphans + AdoptEvents(adopted) == es + [e];
      var before := Run(l, c, es).value;
      StepAdopt(l, before.chain, m);
      RunSnoc(l, c, es, e);
      FlatSnoc(before.outcomes, [Adopt(l, before.chain, m.msg, m.block).outcome]);
    }
  }

  lemma {:induction false} OnlyOrphans(l: Ledger, c: Chain, orphaned: seq<Message>)
    requires WellFormed(l, c)
    ensures AdoptEvents([]) == [] && ChannelUpdate(l, c, orphaned, []) == Updated(RevertEach(c, orphaned), [])
  {
    hide Replay, RevertAll, RevertEach;
    RevertAllIsSequential(c, orphaned);
  }

  lemma {:induction false} AdoptOneMore(l: Ledger, c: Chain, orphaned: seq<Message>, adopted: seq<Message>)
    requires WellFormed(l, c) && adopted != []
    ensures var before, m := ChannelUpdate(l, c, orphaned, adopted[..|adopted| - 1]), adopted[|adopted| - 1];
            var step := Adopt(l, before.chain, m.msg, m.block);
            ChannelUpdate(l, c, orphaned, adopted) == Updated(step.chain, before.outcomes + [step.outcome])
  {
    hide Replay, RevertAll, Adopt;
  }

  lemma {:induction false} StepAdopt(l: Ledger, c: Chain, m: Message)
    requires WellFormed(l, c)
    ensures var step := Adopt(l, c, m.msg, m.block);
            Step(l, c, AdoptedEvent(m.msg, m.block)) == Some(Updated(step.chain, [step.outcome]))
  {
    hide Replay, Adopt;
  }

  // ---- finalized blocks ----

  /** A finalized block that is held is finalized together with everything held before it. */
  lemma {:induction false} FinalizeHeld(l: Ledger, c: Chain, msg: MsgId, b: Block, slot: Slot, i: nat)
    requires WellFormed(l, c) && i < |c.head|
    requires Names(c.head[i], msg, b) && forall j :: 0 <= j < i ==> !Names(c.head[j], msg, b)
    ensures FinalizeBlock(l, c, msg, b, slot)
            == Stepped(Chain(c.base, c.finalized + BlocksOf(c.head[..i + 1]), c.head[i + 1..], None), Applied)
  {
    hide Replay;
    assert HeadPosition(c.head, msg, b) == Some(i);
  }

  /** The final tip is past the block, or is the block. */
  ghost predicate AtOrPast(tip: Option<Tip>, b: Block)
  {
    && tip.Some?
    && (tip.value.blockId > b.header.blockId || tip.value == Tip(b.header.blockId, b.header.hash))
  }

  /** The stall after another failure: the first one stays, counting those after it. */
  function StallAfter(before: Option<StallReason>, b: Block, slot: Slot, err: BlockIngestError): StallReason
  {
    match before
    case Some(s) => s.(orphansSince := if s.orphansSince < U64_MAX then s.orphansSince + 1 else U64_MAX)
    case None =>
      StallReason(Some(b.header.blockId), Some(b.header.hash), Some(b.header.prevBlockHash), Some(b.header.timestamp), slot, err, 0)
  }

  /** The chain after delivering an unheld finalized block on top of its first `k` held blocks. */
  function AfterDelivery(c: Chain, b: Block, slot: Slot, k: nat, outcome: AcceptOutcome): Chain
    requires k <= |c.head|
  {
    var finalized, stall := c.finalized + BlocksOf(c.head[..k]), if k == 0 then c.stall else None;
    match outcome
    case Applied => Chain(c.base, finalized + [b], [], None)
    case AlreadyApplied => Chain(c.base, finalized, c.head[k..], stall)
    case Parked(err) => Chain(c.base, finalized, c.head[k..], Some(StallAfter(stall, b, slot, err)))
  }

  lemma {:induction false} FinalizedPrefixPoint(l: Ledger, c: Chain, k: nat)
    requires WellFormed(l, c) && k <= |c.head|
    ensures WellFormed(l, FinalizePrefix(c, k))
    ensures FinalPoint(l, FinalizePrefix(c, k)) == PointAt(l, c, k)
  {
    FinalizePrefixKeepsHead(l, c, k);
    BlocksOfSlices(c.head, k);
    ReplayPrefix(l, FinalPoint(l, c), BlocksOf(c.head), k);
    ReplayConcat(l, c.base, c.finalized, BlocksOf(c.head[..k]));
  }

  lemma {:induction false} DirectUnfolds(l: Ledger, c: Chain, b: Block, slot: Slot)
    requires WellFormed(l, c)
    ensures var step, p := FinalizeDirect(l, c, b, slot), FinalPoint(l, c);
            var error := ApplyBlock(l, p.tip, b, p.state).error;
            && step.outcome == (if AtOrPast(p.tip, b) then AlreadyApplied else if error.None? then Applied else Parked(error.value))
            && step.chain == AfterDelivery(c, b, slot, 0, step.outcome)
  {
    hide Replay, ApplyBlock;
    assert c.finalized + BlocksOf(c.head[..0]) == c.finalized && c.head[0..] == c.head;
  }

  /** Exactly when an unheld finalized block applies, parks, and is taken for a re-delivery, and the
      chain it leaves. `k` held blocks end in its parent, or none is its parent and `k` is zero; they
      are finalized first, and the block is judged on them. */
  lemma {:induction false} FinalizeUnheldIff(l: Ledger, c: Chain, msg: MsgId, b: Block, slot: Slot, k: nat)
    requires WellFormed(l, c) && !NamedIn(c.head, msg, b) && MovesUpTo(c.head, msg, b, k)
    ensures var step, p := FinalizeBlock(l, c, msg, b, slot), PointAt(l, c, k);
            && (step.outcome.AlreadyApplied? <==> AtOrPast(p.tip, b))
            && (step.outcome.Applied? <==> Applies(l, p, b))
            && (forall err :: step.outcome == Parked(err) <==> !AtOrPast(p.tip, b) && Refused(l, p, b, err))
            && step.chain == AfterDelivery(c, b, slot, k, step.outcome)
  {
    var p := PointAt(l, c, k);
    UnheldUnfolds(l, c, msg, b, slot, k);
    hide FinalizeBlock, PointAt, ApplyBlock, Refused, AfterDelivery;
    ExtendIff(l, p, b, p);
    forall err
      ensures ApplyBlock(l, p.tip, b, p.state).error == Some(err) <==> Refused(l, p, b, err)
    {
      RefusedIff(l, p, b, err);
    }
  }

  lemma {:induction false} UnheldPositions(head: seq<HeadEntry>, msg: MsgId, b: Block, k: nat)
    requires !NamedIn(head, msg, b) && MovesUpTo(head, msg, b, k)
    ensures HeadPosition(head, msg, b).None?
    ensures PositionByHash(head, b.header.prevBlockHash) == if k == 0 then None else Some(k - 1)
  {
  }

  lemma {:induction false} UnheldUnfolds(l: Ledger, c: Chain, msg: MsgId, b: Block, slot: Slot, k: nat)
    requires WellFormed(l, c) && !NamedIn(c.head, msg, b) && MovesUpTo(c.head, msg, b, k)
    ensures var step, p := FinalizeBlock(l, c, msg, b, slot), PointAt(l, c, k);
            var error := ApplyBlock(l, p.tip, b, p.state).error;
            && step.outcome == (if AtOrPast(p.tip, b) then AlreadyApplied else if error.None? then Applied else Parked(error.value))
            && step.chain == AfterDelivery(c, b, slot, k, step.outcome)
  {
    hide Replay, ApplyBlock, HeadPosition, PositionByHash;
    FinalizedPrefixPoint(l, c, k);
    UnheldPositions(c.head, msg, b, k);
    var mid := FinalizePrefix(c, k);
    if k == 0 {
      PointAtTip(l, c, 0);
      DirectUnfolds(l, c, b, slot);
    } else {
      DirectUnfolds(l, mid, b, slot);
      assert mid.finalized + BlocksOf(mid.head[..0]) == mid.finalized && mid.head[0..] == mid.head;
    }
  }
}
