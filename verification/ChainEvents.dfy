/** Whole runs of chain events: reorgs, orphans, finality and stalls. */
module ChainEvents {
  import opened Prelude
  import opened LedgerState
  import opened Blocks
  import opened Applying
  import opened Chains

  datatype Event =
    | AdoptedEvent(msg: MsgId, block: Block)
    | ProducedEvent(msg: MsgId, block: Block)
    | OrphanedEvent(msg: MsgId, block: Block)
    | UpdateEvent(orphaned: seq<Message>, adopted: seq<Message>)
    | FinalizedEvent(msg: MsgId, block: Block, slot: Slot)
    | RestoredEvent(block: Block)

  /** One event; a failed restore is fatal to the caller, so the run ends there. */
  function Step(l: Ledger, c: Chain, e: Event): (r: Option<Updated>)
    requires WellFormed(l, c)
    ensures r.Some? ==> WellFormed(l, r.value.chain)
  {
    match e
    case AdoptedEvent(msg, block) =>
      AdoptWellFormed(l, c, msg, block);
      var step := Adopt(l, c, msg, block);
      Some(Updated(step.chain, [step.outcome]))
    case ProducedEvent(msg, block) =>
      AdoptWellFormed(l, c, msg, block);
      var step := Produce(l, c, msg, block);
      Some(Updated(step.chain, [step.outcome]))
    case OrphanedEvent(msg, block) =>
      RevertAllWellFormed(l, c, [Message(msg, block)]);
      RevertOneIsRevertAll(c, msg, block);
      Some(Updated(RevertOrphan(c, msg, block), []))
    case UpdateEvent(orphaned, adopted) =>
      Some(ChannelUpdate(l, c, orphaned, adopted))
    case FinalizedEvent(msg, block, slot) =>
      FinalizeBlockWellFormed(l, c, msg, block, slot);
      var step := FinalizeBlock(l, c, msg, block, slot);
      Some(Updated(step.chain, [step.outcome]))
    case RestoredEvent(block) =>
      match Restore(l, c, block)
      case None => None
      case Some(restored) =>
        RestoreWellFormed(l, c, block);
        Some(Updated(restored, []))
  }

  datatype RunResult = RunResult(chain: Chain, outcomes: seq<seq<AcceptOutcome>>)

  function Run(l: Ledger, c: Chain, es: seq<Event>): (r: Option<RunResult>)
    requires WellFormed(l, c)
    ensures r.Some? ==> WellFormed(l, r.value.chain)
    decreases |es|
  {
    if es == [] then Some(RunResult(c, []))
    else
      match Run(l, c, es[..|es| - 1])
      case None => None
      case Some(before) =>
        match Step(l, before.chain, es[|es| - 1])
        case None => None
        case Some(u) => Some(RunResult(u.chain, before.outcomes + [u.outcomes]))
  }

  // ---- reorgs ----

  /** `step` cut the head of `c` after its first `k` entries, which are exactly those below `b` and
      which `b` chains on, and put `b` on top of them. */
  ghost predicate ReorgedAt(l: Ledger, c: Chain, msg: MsgId, b: Block, step: Stepped, k: nat)
    requires WellFormed(l, c)
  {
    && k <= |c.head|
    && step.chain == c.(head := c.head[..k] + [HeadEntry(msg, b)])
    && (forall i :: 0 <= i < k ==> c.head[i].block.header.blockId < b.header.blockId)
    && (forall i :: k <= i < |c.head| ==> c.head[i].block.header.blockId >= b.header.blockId)
    && Continues(l, if k == 0 then FinalPoint(l, c).tip else Some(TipOf(c.head[k - 1].block)), b)
  }

  /** An adoption that applies reorgs the head to the block's parent and extends it by the block;
      any other outcome changes nothing. */
  lemma {:induction false} AdoptReorgsExactly(l: Ledger, c: Chain, msg: MsgId, b: Block)
    requires WellFormed(l, c)
    ensures var step := Adopt(l, c, msg, b);
            if step.outcome.Applied? then exists k: nat :: ReorgedAt(l, c, msg, b, step, k) else step.chain == c
  {
    var step := Adopt(l, c, msg, b);
    if step.outcome.Applied? {
      hide Replay, ApplyToState;
      var k := ReorgParent(l, c, b.header.blockId);
      assert ReorgedAt(l, c, msg, b, step, k);
    }
  }

  /** A produced block only ever extends the head. */
  lemma {:induction false} ProduceNeverDrops(l: Ledger, c: Chain, msg: MsgId, b: Block)
    requires WellFormed(l, c)
    ensures c.head <= Produce(l, c, msg, b).chain.head
    ensures Produce(l, c, msg, b).outcome.Applied? ==>
              Produce(l, c, msg, b).chain == c.(head := c.head + [HeadEntry(msg, b)])
  {
    AdoptReorgsExactly(l, c, msg, b);
    if Produce(l, c, msg, b).outcome.Applied? {
      hide Replay, ApplyBlock, Adopt;
      HeadIdsContiguous(l, c);
      var k: nat :| ReorgedAt(l, c, msg, b, Adopt(l, c, msg, b), k);
      if k < |c.head| {
        assert false;
      }
      assert c.head[..k] == c.head;
    }
  }

  // ---- orphans ----

  function RevertEach(c: Chain, orphans: seq<Message>): Chain
    decreases |orphans|
  {
    if orphans == [] then c
    else RevertEach(RevertOrphan(c, orphans[0].msg, orphans[0].block), orphans[1..])
  }

  lemma {:induction false} RevertOneIsRevertAll(c: Chain, msg: MsgId, b: Block)
    ensures RevertAll(c, [Message(msg, b)]) == RevertOrphan(c, msg, b)
  {
    assert [Message(msg, b)][1..] == [];
  }

  /** Looking a message up in a truncated head finds the same entry if it survived. */
  lemma {:induction false} PositionInPrefix(head: seq<HeadEntry>, m: Message, k: nat)
    requires k <= |head|
    ensures PositionOf(head[..k], m)
            == var p := PositionOf(head, m); if p.Some? && p.value < k then p else None
  {
    var whole, cut := PositionOf(head, m), PositionOf(head[..k], m);
    if cut.Some? {
      assert Names(head[cut.value], m.msg, m.block);
    }
    if whole.Some? && whole.value < k {
      assert Names(head[..k][whole.value], m.msg, m.block);
    }
  }

  /** Where the head is cut after truncating to `k` and reverting `orphans`. */
  lemma {:induction false} EarliestInPrefix(head: seq<HeadEntry>, orphans: seq<Message>, k: nat)
    requires k <= |head|
    ensures EarliestOrphan(head[..k], orphans)
            == var p := EarliestOrphan(head, orphans); if p.Some? && p.value < k then p else None
    decreases |orphans|
  {
    hide HeadPosition;
    if orphans != [] {
      PositionInPrefix(head, orphans[0], k);
      EarliestInPrefix(head, orphans[1..], k);
    }
  }

  /** One truncation at the earliest orphan equals reverting the orphans one at a time. */
  lemma {:induction false} RevertAllIsSequential(c: Chain, orphans: seq<Message>)
    ensures RevertAll(c, orphans) == RevertEach(c, orphans)
    decreases |orphans|
  {
    hide HeadPosition;
    if orphans != [] {
      var position := PositionOf(c.head, orphans[0]);
      var once := RevertOrphan(c, orphans[0].msg, orphans[0].block);
      RevertAllIsSequential(once, orphans[1..]);
      if position.Some? {
        EarliestInPrefix(c.head, orphans[1..], position.value);
        var rest := EarliestOrphan(c.head, orphans[1..]);
        if rest.Some? && rest.value < position.value {
          assert c.head[..position.value][..rest.value] == c.head[..rest.value];
        }
      }
    }
  }

  /** The order of the orphans, repetitions and orphans the head does not hold make no
      difference: only the set of named entries does. */
  lemma {:induction false} RevertOrderIrrelevant(c: Chain, xs: seq<Message>, ys: seq<Message>)
    requires forall m :: PositionOf(c.head, m).Some? ==> (m in xs <==> m in ys)
    ensures RevertEach(c, xs) == RevertEach(c, ys)
  {
    RevertAllIsSequential(c, xs);
    RevertAllIsSequential(c, ys);
    hide RevertEach, EarliestOrphan, PositionOf;
    var p, q := EarliestOrphan(c.head, xs), EarliestOrphan(c.head, ys);
    if p.Some? {
      var m :| m in xs && PositionOf(c.head, m) == p;
      assert m in ys;
    }
    if q.Some? {
      var m :| m in ys && PositionOf(c.head, m) == q;
      assert m in xs;
    }
  }

  // ---- finality ----

  /** `c'` is `c` with its first `k` head blocks moved into the final tier. */
  ghost predicate MovedBoundary(c: Chain, c': Chain, k: nat)
    requires k <= |c.head|
  {
    c'.base == c.base && c'.finalized == c.finalized + BlocksOf(c.head[..k]) && c'.head == c.head[k..]
  }

  /** `c'` is `c` with its first `k` head blocks and then `b` finalized, and the rest dropped. */
  ghost predicate RebasedOn(c: Chain, c': Chain, k: nat, b: Block)
    requires k <= |c.head|
  {
    c'.base == c.base && c'.finalized == c.finalized + BlocksOf(c.head[..k]) + [b] && c'.head == []
  }

  lemma {:induction false} FinalTip(l: Ledger, c: Chain)
    requires WellFormed(l, c) && c.finalized != []
    ensures FinalPoint(l, c).tip == Some(TipOf(c.finalized[|c.finalized| - 1]))
  {
    ReplayTip(l, c.base, c.finalized);
  }

  /** The new final tip is the last block moved. */
  lemma {:induction false} FinalizePrefixTip(l: Ledger, c: Chain, k: nat)
    requires WellFormed(l, c) && 0 < k <= |c.head|
    ensures WellFormed(l, FinalizePrefix(c, k))
    ensures FinalPoint(l, FinalizePrefix(c, k)).tip == Some(TipOf(c.head[k - 1].block))
  {
    hide Replay;
    FinalizePrefixKeepsHead(l, c, k);
    var after := FinalizePrefix(c, k);
    assert after.finalized[|after.finalized| - 1] == BlocksOf(c.head[..k])[k - 1] == c.head[k - 1].block;
    hide WellFormed, FinalPoint, FinalizePrefix, BlocksOf;
    FinalTip(l, after);
  }

  /** What a direct application does: nothing but the stall changes, or the block is finalized. */
  lemma {:induction false} FinalizeDirectExact(l: Ledger, c: Chain, b: Block, slot: Slot)
    requires WellFormed(l, c)
    ensures var step := FinalizeDirect(l, c, b, slot);
            && WellFormed(l, step.chain)
            && if step.outcome.Applied? then RebasedOn(c, step.chain, 0, b) && HeadPoint(l, step.chain).tip == Some(TipOf(b))
               else step.chain == c.(stall := step.chain.stall) && HeadPoint(l, step.chain) == HeadPoint(l, c)
  {
    FinalizeDirectWellFormed(l, c, b, slot);
    ReplaySnoc(l, c.base, c.finalized, b);
    assert c.finalized + BlocksOf(c.head[..0]) == c.finalized;
  }

  ghost predicate NamedIn(head: seq<HeadEntry>, msg: MsgId, b: Block)
  {
    exists i :: && 0 <= i < |head| && head[i].block.header.blockId == b.header.blockId
                && (head[i].msg == msg || head[i].block.header.hash == b.header.hash)
  }

  ghost predicate ParentIn(head: seq<HeadEntry>, b: Block)
  {
    exists i :: 0 <= i < |head| && head[i].block.header.hash == b.header.prevBlockHash
  }

  /** How many held blocks a finalized delivery finalizes: up to the first one it names, or, if it
      names none, up to the first one that is its parent, or none. */
  ghost predicate MovesUpTo(head: seq<HeadEntry>, msg: MsgId, b: Block, k: nat)
  {
    && k <= |head|
    && if NamedIn(head, msg, b) then
         k > 0 && Names(head[k - 1], msg, b) && forall i :: 0 <= i < k - 1 ==> !Names(head[i], msg, b)
       else if ParentIn(head, b) then
         && k > 0 && head[k - 1].block.header.hash == b.header.prevBlockHash
         && forall i :: 0 <= i < k - 1 ==> head[i].block.header.hash != b.header.prevBlockHash
       else k == 0
  }

  /** The outcome of delivering finalized `b`, with `k` held blocks finalized on the way: a held block
      is moved, clearing the stall; otherwise either the head state and tip are as before, or the block
      itself was appended and the head rebased on it. */
  ghost predicate FinalizesPrefix(l: Ledger, c: Chain, msg: MsgId, b: Block, step: Stepped, k: nat)
    requires WellFormed(l, c) && WellFormed(l, step.chain)
  {
    && MovesUpTo(c.head, msg, b, k)
    && (NamedIn(c.head, msg, b) ==> MovedBoundary(c, step.chain, k) && step.outcome.Applied? && step.chain.stall.None?)
    && ((MovedBoundary(c, step.chain, k) && HeadPoint(l, step.chain) == HeadPoint(l, c))
        || (RebasedOn(c, step.chain, k, b) && step.outcome.Applied? && HeadPoint(l, step.chain).tip == Some(TipOf(b))))
  }

  /** What a finalized delivery does, whatever it reports. */
  lemma {:induction false} FinalizeExact(l: Ledger, c: Chain, msg: MsgId, b: Block, slot: Slot)
    requires WellFormed(l, c)
    ensures WellFormed(l, FinalizeBlock(l, c, msg, b, slot).chain)
    ensures exists k: nat :: FinalizesPrefix(l, c, msg, b, FinalizeBlock(l, c, msg, b, slot), k)
  {
    hide Replay, ApplyBlock;
    var step := FinalizeBlock(l, c, msg, b, slot);
    FinalizeBlockWellFormed(l, c, msg, b, slot);
    match HeadPosition(c.head, msg, b)
    case Some(i) =>
      FinalizePrefixKeepsHead(l, c, i + 1);
      assert FinalizesPrefix(l, c, msg, b, step, i + 1);
    case None =>
      match PositionByHash(c.head, b.header.prevBlockHash)
      case None =>
        FinalizeDirectExact(l, c, b, slot);
        assert c.finalized + BlocksOf(c.head[..0]) == c.finalized && c.head[0..] == c.head;
        assert FinalizesPrefix(l, c, msg, b, step, 0);
      case Some(i) =>
        FinalizePrefixKeepsHead(l, c, i + 1);
        var mid := FinalizePrefix(c, i + 1);
        FinalizeDirectExact(l, mid, b, slot);
        assert mid.finalized + BlocksOf(mid.head[..0]) == mid.finalized;
        assert FinalizesPrefix(l, c, msg, b, step, i + 1);
  }

  /** No event but a finalized delivery touches the final tier. */
  lemma {:induction false} AdoptAllKeepsFinal(l: Ledger, c: Chain, adopted: seq<Message>)
    requires WellFormed(l, c)
    ensures AdoptAll(l, c, adopted).chain == c.(head := AdoptAll(l, c, adopted).chain.head)
    decreases |adopted|
  {
    if adopted != [] {
      AdoptAllKeepsFinal(l, c, adopted[..|adopted| - 1]);
    }
  }

  lemma {:induction false} StepFinality(l: Ledger, c: Chain, e: Event)
    requires WellFormed(l, c) && Step(l, c, e).Some?
    ensures var c' := Step(l, c, e).value.chain;
            && c'.base == c.base
            && c.finalized <= c'.finalized
            && (!e.FinalizedEvent? ==> c'.finalized == c.finalized && c'.stall == c.stall)
  {
    hide Replay, ApplyBlock;
    match e
    case UpdateEvent(orphaned, adopted) =>
      RevertAllWellFormed(l, c, orphaned);
      AdoptAllKeepsFinal(l, RevertAll(c, orphaned), adopted);
    case FinalizedEvent(msg, block, slot) =>
      FinalizeExact(l, c, msg, block, slot);
    case _ =>
  }

  /** Finality is append-only: whatever reorgs, orphans and failures a run sees, the history
      finalized after a prefix of it is a prefix of the history finalized in the end. */
  lemma {:induction false} FinalityIsAppendOnly(l: Ledger, c: Chain, es: seq<Event>, k: nat)
    requires WellFormed(l, c) && k <= |es|
    requires Run(l, c, es).Some?
    ensures Run(l, c, es[..k]).Some?
    ensures Run(l, c, es[..k]).value.chain.finalized <= Run(l, c, es).value.chain.finalized
    ensures Run(l, c, es).value.chain.base == c.base
    decreases |es|
  {
    hide Step, Replay, ApplyBlock;
    if k == |es| {
      assert es[..k] == es;
    }
    if es != [] {
      var last := |es| - 1;
      StepFinality(l, Run(l, c, es[..last]).value.chain, es[last]);
      FinalityIsAppendOnly(l, c, es[..last], Min(k, last));
      assert es[..last][..Min(k, last)] == es[..Min(k, last)];
    }
  }

  // ---- stalls ----

  datatype ParkedDelivery = ParkedDelivery(header: BlockHeader, slot: Slot, error: BlockIngestError)

  /** The finalized deliveries that parked since the final tier last grew. */
  function PendingFailures(l: Ledger, c: Chain, es: seq<Event>): seq<ParkedDelivery>
    requires WellFormed(l, c) && Run(l, c, es).Some?
    decreases |es|
  {
    if es == [] then []
    else
      var last := |es| - 1;
      var before := Run(l, c, es[..last]).value.chain;
      var u := Step(l, before, es[last]).value;
      var kept := if u.chain.finalized == before.finalized then PendingFailures(l, c, es[..last]) else [];
      if es[last].FinalizedEvent? && u.outcomes[0].Parked? then
        kept + [ParkedDelivery(es[last].block.header, es[last].slot, u.outcomes[0].error)]
      else kept
  }

  /** The first failure verbatim, and how many followed it, saturating. */
  function StallSummary(failures: seq<ParkedDelivery>): Option<StallReason>
  {
    if failures == [] then None
    else
      var f := failures[0];
      Some(StallReason(Some(f.header.blockId), Some(f.header.hash), Some(f.header.prevBlockHash),
                       Some(f.header.timestamp), f.slot, f.error, Min(|failures| - 1, U64_MAX)))
  }

  lemma {:induction false} FinalizeStall(l: Ledger, c: Chain, msg: MsgId, b: Block, slot: Slot)
    requires WellFormed(l, c)
    ensures var step := FinalizeBlock(l, c, msg, b, slot);
            var kept := if step.chain.finalized == c.finalized then c.stall else None;
            step.chain.stall == if step.outcome.Parked? then Some(RecordStall(kept, b, slot, step.outcome.error)) else kept
  {
    hide Replay, ApplyBlock;
    var held := HeadPosition(c.head, msg, b);
    var parent := PositionByHash(c.head, b.header.prevBlockHash);
    if held.Some? || parent.Some? {
      var k := (if held.Some? then held.value else parent.value) + 1;
      assert |FinalizePrefix(c, k).finalized| > |c.finalized|;
      FinalizePrefixKeepsHead(l, c, k);
    }
  }

  /** One more failure in the summary. */
  lemma {:induction false} SummaryEscalates(failures: seq<ParkedDelivery>, f: ParkedDelivery, b: Block)
    requires f.header == b.header
    ensures StallSummary(failures + [f]) == Some(RecordStall(StallSummary(failures), b, f.slot, f.error))
  {
  }

  /** After every run the recorded stall tells exactly the failures since the final tier last
      grew: none recorded if there are none, otherwise the first one and the count of the rest. */
  lemma {:induction false} StallHistory(l: Ledger, p: Point, es: seq<Event>)
    requires Run(l, FromFinal(p), es).Some?
    ensures Run(l, FromFinal(p), es).value.chain.stall == StallSummary(PendingFailures(l, FromFinal(p), es))
    decreases |es|
  {
    if es != [] {
      var last := |es| - 1;
      var before := Run(l, FromFinal(p), es[..last]).value.chain;
      StallHistory(l, p, es[..last]);
      var pending := PendingFailures(l, FromFinal(p), es[..last]);
      StepStall(l, before, es[last], pending);
    }
  }

  lemma {:induction false} StepStall(l: Ledger, c: Chain, e: Event, pending: seq<ParkedDelivery>)
    requires WellFormed(l, c) && Step(l, c, e).Some?
    requires c.stall == StallSummary(pending)
    ensures var u := Step(l, c, e).value;
            var kept := if u.chain.finalized == c.finalized then pending else [];
            u.chain.stall == StallSummary(
              if e.FinalizedEvent? && u.outcomes[0].Parked? then
                kept + [ParkedDelivery(e.block.header, e.slot, u.outcomes[0].error)]
              else kept)
  {
    StepFinality(l, c, e);
    if e.FinalizedEvent? {
      var u := Step(l, c, e).value;
      FinalizeStall(l, c, e.msg, e.block, e.slot);
      var kept := if u.chain.finalized == c.finalized then pending else [];
      if u.outcomes[0].Parked? {
        SummaryEscalates(kept, ParkedDelivery(e.block.header, e.slot, u.outcomes[0].error), e.block);
      }
    }
  }

  // ---- re-deliveries ----

  /** Delivered finalized, `b` is not held, its parent is held at `i`, and the parent's tip is at or
      past `b`. */
  ghost predicate StaleOnHeldParent(c: Chain, msg: MsgId, b: Block, i: nat)
  {
    && HeadPosition(c.head, msg, b).None?
    && PositionByHash(c.head, b.header.prevBlockHash) == Some(i)
    && Redelivered(Some(TipOf(c.head[i].block)), b)
  }

  /** Which deliveries are reported as already applied although they change the chain: exactly the
      stale blocks that name a held block as parent. Any other delivery so reported changes nothing. */
  lemma {:induction false} AlreadyAppliedChangesIff(l: Ledger, c: Chain, msg: MsgId, b: Block, slot: Slot)
    requires WellFormed(l, c)
    ensures var step := FinalizeBlock(l, c, msg, b, slot);
            step.outcome.AlreadyApplied? && step.chain != c <==> exists i: nat :: StaleOnHeldParent(c, msg, b, i)
  {
    hide Replay, ApplyBlock;
    var parent := PositionByHash(c.head, b.header.prevBlockHash);
    if HeadPosition(c.head, msg, b).None? && parent.Some? {
      var k := parent.value + 1;
      FinalizePrefixTip(l, c, k);
      assert |FinalizePrefix(c, k).finalized| == |c.finalized| + k;
      assert Redelivered(FinalPoint(l, FinalizePrefix(c, k)).tip, b) ==> StaleOnHeldParent(c, msg, b, parent.value);
    }
  }
}
