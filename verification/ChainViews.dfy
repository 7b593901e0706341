/** When two nodes that show the same chain answer alike, whatever message ids they hold it under. */
module ChainViews {
  import opened Prelude
  import opened LedgerState
  import opened Blocks
  import opened Applying
  import opened Chains
  import opened ChainEvents

  /** Both chains show the same tiers; message ids, stalls and where the log starts may differ. */
  predicate SameView(l: Ledger, c: Chain, d: Chain)
  {
    && WellFormed(l, c) && WellFormed(l, d)
    && FinalPoint(l, c) == FinalPoint(l, d)
    && BlocksOf(c.head) == BlocksOf(d.head)
  }

  lemma {:induction false} SameViewSameHead(l: Ledger, c: Chain, d: Chain)
    requires SameView(l, c, d)
    ensures HeadPoint(l, c) == HeadPoint(l, d)
  {
  }

  // ---- when two nodes with the same view answer alike ----

  /** At the height of `m`, an entry with another hash is named by `m` in both heads or in neither. */
  ghost predicate NamedAlike(h: seq<HeadEntry>, k: seq<HeadEntry>, m: Message)
  {
    forall i :: 0 <= i < |h| && i < |k|
                && h[i].block.header.blockId == m.block.header.blockId && h[i].block.header.hash != m.block.header.hash
                ==> (h[i].msg == m.msg <==> k[i].msg == m.msg)
  }

  lemma {:induction false} SameViewEntries(l: Ledger, c: Chain, d: Chain)
    requires SameView(l, c, d)
    ensures |c.head| == |d.head| && forall i :: 0 <= i < |c.head| ==> c.head[i].block == d.head[i].block
  {
    assert |BlocksOf(c.head)| == |BlocksOf(d.head)|;
    assert forall i :: 0 <= i < |c.head| ==> BlocksOf(c.head)[i] == BlocksOf(d.head)[i];
  }

  /** An entry named in one head only, at the one place of its height, makes the lookups differ. */
  lemma {:induction false} LookupsDiffer(h: seq<HeadEntry>, k: seq<HeadEntry>, first: nat, m: Message, i: nat)
    requires |h| == |k| && (forall j :: 0 <= j < |h| ==> h[j].block == k[j].block && h[j].block.header.blockId == first + j)
    requires i < |h| && Names(h[i], m.msg, m.block) && !Names(k[i], m.msg, m.block)
    ensures PositionOf(h, m) == Some(i) && PositionOf(k, m).None?
  {
    hide HeadPosition;
    assert forall j :: 0 <= j < |h| && j != i ==> !Names(h[j], m.msg, m.block) && !Names(k[j], m.msg, m.block);
  }

  /** The message is looked up alike exactly when it names alike. */
  lemma {:induction false} LookupsAgreeIff(l: Ledger, c: Chain, d: Chain, m: Message)
    requires SameView(l, c, d)
    ensures PositionOf(c.head, m) == PositionOf(d.head, m) <==> NamedAlike(c.head, d.head, m)
  {
    SameViewEntries(l, c, d);
    HeadIdsContiguous(l, c);
    var first := NextId(FinalPoint(l, c).tip);
    hide SameView, WellFormed, FinalPoint, Replay, HeadPosition;
    if i :| 0 <= i < |c.head| && !(Names(c.head[i], m.msg, m.block) <==> Names(d.head[i], m.msg, m.block)) {
      if Names(c.head[i], m.msg, m.block) {
        LookupsDiffer(c.head, d.head, first, m, i);
      } else {
        LookupsDiffer(d.head, c.head, first, m, i);
      }
    }
  }

  lemma {:induction false} HashLookupsAgree(h: seq<HeadEntry>, k: seq<HeadEntry>, hash: Hash)
    requires BlocksOf(h) == BlocksOf(k)
    ensures PositionByHash(h, hash) == PositionByHash(k, hash)
  {
    assert forall i :: 0 <= i < |h| ==> BlocksOf(h)[i] == BlocksOf(k)[i];
  }

  lemma {:induction false} BelowAgrees(l: Ledger, c: Chain, d: Chain, id: nat)
    requires SameView(l, c, d)
    ensures exists n: nat :: n <= |c.head| && Below(c.head, id) == c.head[..n] && Below(d.head, id) == d.head[..n]
    ensures BlocksOf(Below(c.head, id)) == BlocksOf(Below(d.head, id))
  {
    HeadIdsContiguous(l, c);
    HeadIdsContiguous(l, d);
    var first := NextId(FinalPoint(l, c).tip);
    BelowIsPrefix(c.head, first, id);
    BelowIsPrefix(d.head, first, id);
    var n := if id <= first then 0 else Min(id - first, |c.head|);
    BlocksOfSlices(c.head, n);
    BlocksOfSlices(d.head, n);
  }

  // ---- adoptions ----

  lemma {:induction false} AdoptAlike(l: Ledger, c: Chain, d: Chain, m: Message)
    requires SameView(l, c, d) && PositionOf(c.head, m) == PositionOf(d.head, m)
    ensures Adopt(l, c, m.msg, m.block).outcome == Adopt(l, d, m.msg, m.block).outcome
    ensures SameView(l, Adopt(l, c, m.msg, m.block).chain, Adopt(l, d, m.msg, m.block).chain)
  {
    hide Replay, ApplyBlock;
    BelowAgrees(l, c, d, m.block.header.blockId);
    AdoptWellFormed(l, c, m.msg, m.block);
    AdoptWellFormed(l, d, m.msg, m.block);
    var e := HeadEntry(m.msg, m.block);
    BlocksOfSnoc(Below(c.head, m.block.header.blockId), e);
    BlocksOfSnoc(Below(d.head, m.block.header.blockId), e);
  }

  /** A node that does not hold the block at a held height does not take it for applied. */
  lemma {:induction false} UnheldIsTried(l: Ledger, c: Chain, d: Chain, m: Message)
    requires SameView(l, c, d) && PositionOf(c.head, m).Some? && PositionOf(d.head, m).None?
    ensures !Adopt(l, d, m.msg, m.block).outcome.AlreadyApplied?
  {
    HeadIdsContiguous(l, c);
    assert Names(c.head[PositionOf(c.head, m).value], m.msg, m.block);
    hide Replay, ApplyBlock;
  }

  /** Adoption has the same outcome on both nodes exactly when the message names alike, and then the
      views stay the same. */
  lemma {:induction false} AdoptAlikeIff(l: Ledger, c: Chain, d: Chain, m: Message)
    requires SameView(l, c, d)
    ensures Adopt(l, c, m.msg, m.block).outcome == Adopt(l, d, m.msg, m.block).outcome <==> NamedAlike(c.head, d.head, m)
    ensures NamedAlike(c.head, d.head, m) ==> SameView(l, Adopt(l, c, m.msg, m.block).chain, Adopt(l, d, m.msg, m.block).chain)
  {
    LookupsAgreeIff(l, c, d, m);
    if NamedAlike(c.head, d.head, m) {
      AdoptAlike(l, c, d, m);
    } else {
      LookupsOneSided(l, c, d, m);
      if PositionOf(c.head, m).Some? {
        UnheldIsTried(l, c, d, m);
      } else {
        UnheldIsTried(l, d, c, m);
      }
    }
  }

  /** Ids are consecutive, so two lookups that differ are a hit and a miss. */
  lemma {:induction false} LookupsOneSided(l: Ledger, c: Chain, d: Chain, m: Message)
    requires SameView(l, c, d) && PositionOf(c.head, m) != PositionOf(d.head, m)
    ensures PositionOf(c.head, m).None? <==> PositionOf(d.head, m).Some?
  {
    SameViewEntries(l, c, d);
    HeadIdsContiguous(l, c);
    hide WellFormed, Replay, HeadPosition;
  }

  /** A produced block is never looked up below the head. */
  lemma {:induction false} ProduceAlike(l: Ledger, c: Chain, d: Chain, m: Message)
    requires SameView(l, c, d)
    ensures Produce(l, c, m.msg, m.block).outcome == Produce(l, d, m.msg, m.block).outcome
    ensures SameView(l, Produce(l, c, m.msg, m.block).chain, Produce(l, d, m.msg, m.block).chain)
  {
    SameViewSameHead(l, c, d);
    if !Settled(HeadPoint(l, c).tip, m.block) {
      SameViewEntries(l, c, d);
      HeadIdsContiguous(l, c);
      AdoptAlikeIff(l, c, d, m);
    }
  }

  /** The adoptions of a batch, each when its turn comes. */
  ghost predicate AdoptionsAlike(l: Ledger, c: Chain, d: Chain, ms: seq<Message>)
    requires WellFormed(l, c) && WellFormed(l, d)
    decreases |ms|
  {
    ms == []
    || (var last := |ms| - 1;
        && AdoptionsAlike(l, c, d, ms[..last])
        && NamedAlike(AdoptAll(l, c, ms[..last]).chain.head, AdoptAll(l, d, ms[..last]).chain.head, ms[last]))
  }

  lemma {:induction false} AdoptAllAlikeIff(l: Ledger, c: Chain, d: Chain, ms: seq<Message>)
    requires SameView(l, c, d)
    ensures AdoptAll(l, c, ms).outcomes == AdoptAll(l, d, ms).outcomes <==> AdoptionsAlike(l, c, d, ms)
    ensures AdoptionsAlike(l, c, d, ms) ==> SameView(l, AdoptAll(l, c, ms).chain, AdoptAll(l, d, ms).chain)
    decreases |ms|
  {
    if ms != [] {
      hide SameView, NamedAlike, Adopt;
      var last := |ms| - 1;
      AdoptAllAlikeIff(l, c, d, ms[..last]);
      var x, y := AdoptAll(l, c, ms[..last]), AdoptAll(l, d, ms[..last]);
      if x.outcomes == y.outcomes {
        AdoptAlikeIff(l, x.chain, y.chain, ms[last]);
        SnocEqual(x.outcomes, Adopt(l, x.chain, ms[last].msg, ms[last].block).outcome, Adopt(l, y.chain, ms[last].msg, ms[last].block).outcome);
      } else {
        assert AdoptAll(l, c, ms).outcomes[..last] == x.outcomes && AdoptAll(l, d, ms).outcomes[..last] == y.outcomes;
      }
    }
  }

  lemma {:induction false} SnocEqual<T>(xs: seq<T>, x: T, y: T)
    ensures xs + [x] == xs + [y] <==> x == y
  {
    assert (xs + [x])[|xs|] == x && (xs + [y])[|xs|] == y;
  }

  // ---- orphans ----

  lemma {:induction false} TruncateAlike(l: Ledger, c: Chain, d: Chain, k: nat)
    requires SameView(l, c, d) && k <= |c.head|
    ensures k <= |d.head| && SameView(l, c.(head := c.head[..k]), d.(head := d.head[..k]))
  {
    assert |BlocksOf(c.head)| == |BlocksOf(d.head)|;
    TruncateWellFormed(l, c, k);
    TruncateWellFormed(l, d, k);
    BlocksOfSlices(c.head, k);
    BlocksOfSlices(d.head, k);
  }

  /** Reverting a batch keeps the views the same exactly when both heads are cut at one place. */
  lemma {:induction false} RevertAllAlikeIff(l: Ledger, c: Chain, d: Chain, ms: seq<Message>)
    requires SameView(l, c, d)
    ensures SameView(l, RevertAll(c, ms), RevertAll(d, ms)) <==> EarliestOrphan(c.head, ms) == EarliestOrphan(d.head, ms)
  {
    SameViewEntries(l, c, d);
    var p, q := EarliestOrphan(c.head, ms), EarliestOrphan(d.head, ms);
    if p == q {
      if p.Some? {
        TruncateAlike(l, c, d, p.value);
      }
    } else {
      assert |BlocksOf(RevertAll(c, ms).head)| != |BlocksOf(RevertAll(d, ms).head)|;
    }
  }

  /** Reverting one orphan keeps the views the same exactly when the message names alike. */
  lemma {:induction false} OrphanAlikeIff(l: Ledger, c: Chain, d: Chain, m: Message)
    requires SameView(l, c, d)
    ensures SameView(l, RevertOrphan(c, m.msg, m.block), RevertOrphan(d, m.msg, m.block)) <==> NamedAlike(c.head, d.head, m)
  {
    RevertOneIsRevertAll(c, m.msg, m.block);
    RevertOneIsRevertAll(d, m.msg, m.block);
    RevertAllAlikeIff(l, c, d, [m]);
    LookupsAgreeIff(l, c, d, m);
    assert EarliestOrphan(c.head, [m]) == PositionOf(c.head, m) && EarliestOrphan(d.head, [m]) == PositionOf(d.head, m);
  }

  // ---- finality ----

  lemma {:induction false} FinalizePrefixAlike(l: Ledger, c: Chain, d: Chain, k: nat)
    requires SameView(l, c, d) && k <= |c.head|
    ensures k <= |d.head| && SameView(l, FinalizePrefix(c, k), FinalizePrefix(d, k))
  {
    assert |BlocksOf(c.head)| == |BlocksOf(d.head)|;
    FinalizePrefixKeepsHead(l, c, k);
    FinalizePrefixKeepsHead(l, d, k);
    BlocksOfSlices(c.head, k);
    BlocksOfSlices(d.head, k);
    ReplayConcat(l, c.base, c.finalized, BlocksOf(c.head[..k]));
    ReplayConcat(l, d.base, d.finalized, BlocksOf(d.head[..k]));
  }

  lemma {:induction false} FinalizeDirectAlike(l: Ledger, c: Chain, d: Chain, b: Block, slot: Slot)
    requires SameView(l, c, d)
    ensures FinalizeDirect(l, c, b, slot).outcome == FinalizeDirect(l, d, b, slot).outcome
    ensures SameView(l, FinalizeDirect(l, c, b, slot).chain, FinalizeDirect(l, d, b, slot).chain)
  {
    FinalizeDirectWellFormed(l, c, b, slot);
    FinalizeDirectWellFormed(l, d, b, slot);
    ReplaySnoc(l, c.base, c.finalized, b);
    ReplaySnoc(l, d.base, d.finalized, b);
  }

  /** Delivering `m` when neither head holds it. */
  lemma {:induction false} FinalizeUnheldAlike(l: Ledger, c: Chain, d: Chain, m: Message, slot: Slot)
    requires SameView(l, c, d)
    requires PositionOf(c.head, m).None? && PositionOf(d.head, m).None?
    ensures FinalizeBlock(l, c, m.msg, m.block, slot).outcome == FinalizeBlock(l, d, m.msg, m.block, slot).outcome
    ensures SameView(l, FinalizeBlock(l, c, m.msg, m.block, slot).chain, FinalizeBlock(l, d, m.msg, m.block, slot).chain)
  {
    hide Replay, ApplyBlock;
    HashLookupsAgree(c.head, d.head, m.block.header.prevBlockHash);
    match PositionByHash(c.head, m.block.header.prevBlockHash)
    case None => FinalizeDirectAlike(l, c, d, m.block, slot);
    case Some(i) =>
      FinalizePrefixAlike(l, c, d, i + 1);
      FinalizeDirectAlike(l, FinalizePrefix(c, i + 1), FinalizePrefix(d, i + 1), m.block, slot);
  }

  lemma {:induction false} FinalizeHeldAlike(l: Ledger, c: Chain, d: Chain, m: Message, slot: Slot, i: nat)
    requires SameView(l, c, d) && PositionOf(c.head, m) == PositionOf(d.head, m) == Some(i)
    ensures FinalizeBlock(l, c, m.msg, m.block, slot).outcome == FinalizeBlock(l, d, m.msg, m.block, slot).outcome
    ensures SameView(l, FinalizeBlock(l, c, m.msg, m.block, slot).chain, FinalizeBlock(l, d, m.msg, m.block, slot).chain)
  {
    hide Replay, ApplyBlock, HeadPosition;
    FinalizePrefixAlike(l, c, d, i + 1);
    assert FinalizeBlock(l, c, m.msg, m.block, slot) == Stepped(FinalizePrefix(c, i + 1), Applied);
    assert FinalizeBlock(l, d, m.msg, m.block, slot) == Stepped(FinalizePrefix(d, i + 1), Applied);
  }

  /** An unheld finalized block that applies becomes the final tip. */
  lemma {:induction false} AppliedIsFinalTip(l: Ledger, d: Chain, m: Message, slot: Slot)
    requires WellFormed(l, d) && PositionOf(d.head, m).None? && FinalizeBlock(l, d, m.msg, m.block, slot).outcome.Applied?
    ensures WellFormed(l, FinalizeBlock(l, d, m.msg, m.block, slot).chain)
    ensures FinalPoint(l, FinalizeBlock(l, d, m.msg, m.block, slot).chain).tip == Some(TipOf(m.block))
  {
    hide Replay, ApplyBlock, HeadPosition;
    FinalizeBlockWellFormed(l, d, m.msg, m.block, slot);
    var parent := PositionByHash(d.head, m.block.header.prevBlockHash);
    var mid := if parent.Some? then FinalizePrefix(d, parent.value + 1) else d;
    if parent.Some? {
      FinalizePrefixKeepsHead(l, d, parent.value + 1);
    }
    var after := FinalizeDirect(l, mid, m.block, slot).chain;
    ReplayTip(l, after.base, after.finalized);
  }

  /** If one node holds the delivered block by message id only, the two part: in the outcome, or in
      the block they finalize. */
  lemma {:induction false} FinalizeParts(l: Ledger, c: Chain, d: Chain, m: Message, slot: Slot)
    requires SameView(l, c, d) && PositionOf(c.head, m).Some? && PositionOf(d.head, m).None?
    ensures FinalizeBlock(l, c, m.msg, m.block, slot).outcome != FinalizeBlock(l, d, m.msg, m.block, slot).outcome
            || !SameView(l, FinalizeBlock(l, c, m.msg, m.block, slot).chain, FinalizeBlock(l, d, m.msg, m.block, slot).chain)
  {
    hide Replay, ApplyBlock, HeadPosition;
    SameViewEntries(l, c, d);
    var i := PositionOf(c.head, m).value;
    assert Names(c.head[i], m.msg, m.block) && !Names(d.head[i], m.msg, m.block);
    FinalizePrefixTip(l, c, i + 1);
    assert FinalizeBlock(l, c, m.msg, m.block, slot) == Stepped(FinalizePrefix(c, i + 1), Applied);
    if FinalizeBlock(l, d, m.msg, m.block, slot).outcome.Applied? {
      AppliedIsFinalTip(l, d, m, slot);
    }
  }

  /** A finalized delivery has the same outcome and leaves the same view exactly when the message
      names alike. */
  lemma {:induction false} FinalizeAlikeIff(l: Ledger, c: Chain, d: Chain, m: Message, slot: Slot)
    requires SameView(l, c, d)
    ensures var x, y := FinalizeBlock(l, c, m.msg, m.block, slot), FinalizeBlock(l, d, m.msg, m.block, slot);
            x.outcome == y.outcome && SameView(l, x.chain, y.chain) <==> NamedAlike(c.head, d.head, m)
  {
    hide FinalizeBlock, HeadPosition, NamedAlike;
    LookupsAgreeIff(l, c, d, m);
    if NamedAlike(c.head, d.head, m) {
      match PositionOf(c.head, m)
      case Some(i) => FinalizeHeldAlike(l, c, d, m, slot, i);
      case None => FinalizeUnheldAlike(l, c, d, m, slot);
    } else {
      LookupsOneSided(l, c, d, m);
      if PositionOf(c.head, m).Some? {
        FinalizeParts(l, c, d, m, slot);
      } else {
        FinalizeParts(l, d, c, m, slot);
        SameViewSymmetric(l, FinalizeBlock(l, c, m.msg, m.block, slot).chain, FinalizeBlock(l, d, m.msg, m.block, slot).chain);
      }
    }
  }

  lemma {:induction false} SameViewSymmetric(l: Ledger, c: Chain, d: Chain)
    ensures SameView(l, c, d) <==> SameView(l, d, c)
  {
  }

  lemma {:induction false} RestoreAlike(l: Ledger, c: Chain, d: Chain, b: Block)
    requires SameView(l, c, d)
    ensures Restore(l, c, b).Some? <==> Restore(l, d, b).Some?
    ensures Restore(l, c, b).Some? ==> SameView(l, Restore(l, c, b).value, Restore(l, d, b).value)
  {
    SameViewSameHead(l, c, d);
    if Restore(l, c, b).Some? {
      RestoreWellFormed(l, c, b);
      RestoreWellFormed(l, d, b);
      BlocksOfSnoc(c.head, HeadEntry(b.header.hash, b));
      BlocksOfSnoc(d.head, HeadEntry(b.header.hash, b));
    }
  }

  // ---- events and runs ----

  /** Whether the two nodes will take `e` alike, seen from their heads before it. */
  ghost predicate EventAlike(l: Ledger, c: Chain, d: Chain, e: Event)
    requires WellFormed(l, c) && WellFormed(l, d)
  {
    match e
    case AdoptedEvent(msg, b) => NamedAlike(c.head, d.head, Message(msg, b))
    case OrphanedEvent(msg, b) => NamedAlike(c.head, d.head, Message(msg, b))
    case FinalizedEvent(msg, b, _) => NamedAlike(c.head, d.head, Message(msg, b))
    case ProducedEvent(_, _) => true
    case RestoredEvent(_) => true
    case UpdateEvent(orphaned, adopted) =>
      RevertAllWellFormed(l, c, orphaned);
      RevertAllWellFormed(l, d, orphaned);
      && EarliestOrphan(c.head, orphaned) == EarliestOrphan(d.head, orphaned)
      && AdoptionsAlike(l, RevertAll(c, orphaned), RevertAll(d, orphaned), adopted)
  }

  /** Both nodes take the step with the same outcomes and the same view, or both fail it. */
  ghost predicate StepsAlike(l: Ledger, c: Chain, d: Chain, e: Event)
    requires WellFormed(l, c) && WellFormed(l, d)
  {
    var x, y := Step(l, c, e), Step(l, d, e);
    && (x.Some? <==> y.Some?)
    && (x.Some? ==> x.value.outcomes == y.value.outcomes && SameView(l, x.value.chain, y.value.chain))
  }

  /** An event with one point at which the nodes can be compared: a batch reverts or adopts, not both. */
  predicate Elementary(e: Event)
  {
    e.UpdateEvent? ==> e.orphaned == [] || e.adopted == []
  }

  lemma {:induction false} UpdateAlike(l: Ledger, c: Chain, d: Chain, e: Event)
    requires SameView(l, c, d) && e.UpdateEvent?
    ensures EventAlike(l, c, d, e) ==> StepsAlike(l, c, d, e)
    ensures Elementary(e) && StepsAlike(l, c, d, e) ==> EventAlike(l, c, d, e)
  {
    hide AdoptionsAlike, Replay, AdoptAll, EarliestOrphan;
    RevertAllWellFormed(l, c, e.orphaned);
    RevertAllWellFormed(l, d, e.orphaned);
    RevertAllAlikeIff(l, c, d, e.orphaned);
    var x, y := RevertAll(c, e.orphaned), RevertAll(d, e.orphaned);
    if SameView(l, x, y) {
      AdoptAllAlikeIff(l, x, y, e.adopted);
    }
    NothingReverted(c, d);
    NothingAdopted(l, x, y);
  }

  lemma {:induction false} NothingReverted(c: Chain, d: Chain)
    ensures EarliestOrphan(c.head, []) == EarliestOrphan(d.head, [])
  {
  }

  lemma {:induction false} NothingAdopted(l: Ledger, c: Chain, d: Chain)
    requires WellFormed(l, c) && WellFormed(l, d)
    ensures AdoptionsAlike(l, c, d, []) && AdoptAll(l, c, []).chain == c && AdoptAll(l, d, []).chain == d
  {
  }

  /** A mixed batch is an elementary revert followed by an elementary batch of adoptions, so every run
      is one of elementary events, observed less often. */
  lemma {:induction false} UpdateSplits(l: Ledger, c: Chain, orphaned: seq<Message>, adopted: seq<Message>)
    requires WellFormed(l, c)
    ensures Step(l, c, UpdateEvent(orphaned, [])).Some?
    ensures Step(l, c, UpdateEvent(orphaned, adopted))
            == Step(l, Step(l, c, UpdateEvent(orphaned, [])).value.chain, UpdateEvent([], adopted))
  {
    hide Replay, AdoptAll, EarliestOrphan, RevertOrphan, Adopt, FinalizeBlock;
    RevertAllWellFormed(l, c, orphaned);
    var x := RevertAll(c, orphaned);
    NothingAdopted(l, x, x);
    assert EarliestOrphan(x.head, []).None?;
    assert ChannelUpdate(l, c, orphaned, []).chain == x;
  }

  /** The exact condition for one event. */
  lemma {:induction false} StepAlikeIff(l: Ledger, c: Chain, d: Chain, e: Event)
    requires SameView(l, c, d)
    ensures EventAlike(l, c, d, e) ==> StepsAlike(l, c, d, e)
    ensures Elementary(e) && StepsAlike(l, c, d, e) ==> EventAlike(l, c, d, e)
  {
    hide NamedAlike, Adopt, Produce, RevertOrphan, FinalizeBlock, Restore, Replay;
    match e
    case AdoptedEvent(msg, b) => AdoptAlikeIff(l, c, d, Message(msg, b));
    case ProducedEvent(msg, b) => ProduceAlike(l, c, d, Message(msg, b));
    case OrphanedEvent(msg, b) => OrphanAlikeIff(l, c, d, Message(msg, b));
    case UpdateEvent(_, _) => UpdateAlike(l, c, d, e);
    case FinalizedEvent(msg, b, slot) => FinalizeAlikeIff(l, c, d, Message(msg, b), slot);
    case RestoredEvent(b) => RestoreAlike(l, c, d, b);
  }

  /** After every prefix both nodes have answered alike and show the same view, or both have failed. */
  ghost predicate RunsAlike(l: Ledger, c: Chain, d: Chain, es: seq<Event>)
    requires WellFormed(l, c) && WellFormed(l, d)
  {
    forall k :: 0 <= k <= |es| ==> SameSoFar(l, c, d, es[..k])
  }

  ghost predicate SameSoFar(l: Ledger, c: Chain, d: Chain, es: seq<Event>)
    requires WellFormed(l, c) && WellFormed(l, d)
  {
    var x, y := Run(l, c, es), Run(l, d, es);
    && (x.Some? <==> y.Some?)
    && (x.Some? ==> x.value.outcomes == y.value.outcomes && SameView(l, x.value.chain, y.value.chain))
  }

  /** Every event, when it is delivered, will be taken alike. */
  ghost predicate EventsAlike(l: Ledger, c: Chain, d: Chain, es: seq<Event>)
    requires WellFormed(l, c) && WellFormed(l, d)
    decreases |es|
  {
    es == []
    || (var last := |es| - 1;
        var x, y := Run(l, c, es[..last]), Run(l, d, es[..last]);
        && EventsAlike(l, c, d, es[..last])
        && (x.Some? && y.Some? ==> EventAlike(l, x.value.chain, y.value.chain, es[last])))
  }

  lemma {:induction false} RunsAlikeSnoc(l: Ledger, c: Chain, d: Chain, es: seq<Event>)
    requires WellFormed(l, c) && WellFormed(l, d) && es != []
    ensures RunsAlike(l, c, d, es) <==> RunsAlike(l, c, d, es[..|es| - 1]) && SameSoFar(l, c, d, es)
  {
    hide SameSoFar, WellFormed;
    var init := es[..|es| - 1];
    assert es[..|es|] == es;
    assert forall k :: 0 <= k <= |init| ==> init[..k] == es[..k];
  }

  lemma {:induction false} LastStepAlike(l: Ledger, c: Chain, d: Chain, es: seq<Event>)
    requires WellFormed(l, c) && WellFormed(l, d) && es != [] && SameSoFar(l, c, d, es[..|es| - 1])
    ensures var x, y := Run(l, c, es[..|es| - 1]), Run(l, d, es[..|es| - 1]);
            SameSoFar(l, c, d, es) <==> (x.Some? ==> StepsAlike(l, x.value.chain, y.value.chain, es[|es| - 1]))
  {
    hide Step, SameView;
    var x, y := Run(l, c, es[..|es| - 1]), Run(l, d, es[..|es| - 1]);
    if x.Some? {
      var s, t := Step(l, x.value.chain, es[|es| - 1]), Step(l, y.value.chain, es[|es| - 1]);
      if s.Some? && t.Some? {
        SnocEqual(x.value.outcomes, s.value.outcomes, t.value.outcomes);
      }
    }
  }

  /** The exact condition for a run: two nodes with the same view answer alike and keep the same
      view throughout exactly when every event names alike at the moment it is delivered. For a batch
      that reverts and adopts at once only the first direction is claimed, since its adoptions can
      bring parted heads together again. */
  lemma {:induction false} RunsAlikeIff(l: Ledger, c: Chain, d: Chain, es: seq<Event>)
    requires SameView(l, c, d)
    ensures EventsAlike(l, c, d, es) ==> RunsAlike(l, c, d, es)
    ensures (forall i :: 0 <= i < |es| ==> Elementary(es[i])) && RunsAlike(l, c, d, es) ==> EventsAlike(l, c, d, es)
    decreases |es|
  {
    hide Replay, EventAlike, StepsAlike, Run;
    if es == [] {
      EmptyRunAlike(l, c, d);
    } else {
      var init := es[..|es| - 1];
      RunsAlikeIff(l, c, d, init);
      RunsAlikeSnoc(l, c, d, es);
      if RunsAlike(l, c, d, init) {
        assert init[..|init|] == init;
        LastStepAlike(l, c, d, es);
        var x, y := Run(l, c, init), Run(l, d, init);
        if x.Some? {
          StepAlikeIff(l, x.value.chain, y.value.chain, es[|es| - 1]);
        }
      }
    }
  }

  lemma {:induction false} EmptyRunAlike(l: Ledger, c: Chain, d: Chain)
    requires SameView(l, c, d)
    ensures RunsAlike(l, c, d, [])
  {
    var none: seq<Event> := [];
    assert none[..0] == none;
  }
}
