/** The two-tier chain as a value (`lez/chain_state/src/chain.rs`): only block lists are kept, and
    every ledger state is the one obtained by replaying them from scratch. */
module Chains {
  import opened Prelude
  import opened LedgerState
  import opened Blocks
  import opened Applying

  type MsgId = Bytes32

  /** A ledger state and the tip it was reached at. */
  datatype Point = Point(state: State, tip: Option<Tip>)

  function Extend(l: Ledger, p: Point, b: Block): Option<Point>
  {
    var attempt := ApplyBlock(l, p.tip, b, p.state);
    if attempt.error.None? then Some(Point(attempt.state, Some(TipOf(b)))) else None
  }

  /** Applying `bs` in order, or nothing if one of them does not apply. */
  function Replay(l: Ledger, p: Point, bs: seq<Block>): Option<Point>
    decreases |bs|
  {
    if bs == [] then Some(p)
    else
      match Extend(l, p, bs[0])
      case None => None
      case Some(q) => Replay(l, q, bs[1..])
  }

  datatype HeadEntry = HeadEntry(msg: MsgId, block: Block)

  /** The first block that broke the final tier, and how many failed after it. */
  datatype StallReason = StallReason(
    blockId: Option<nat>,
    blockHash: Option<Hash>,
    prevBlockHash: Option<Hash>,
    firstSeen: Option<nat>,
    l1Slot: Slot,
    error: BlockIngestError,
    orphansSince: nat)

  function NewStall(header: Option<BlockHeader>, slot: Slot, error: BlockIngestError): StallReason
  {
    if header.Some? then
      var h := header.value;
      StallReason(Some(h.blockId), Some(h.hash), Some(h.prevBlockHash), Some(h.timestamp), slot, error, 0)
    else
      StallReason(None, None, None, None, slot, error, 0)
  }

  function Escalate(stall: StallReason): StallReason
  {
    stall.(orphansSince := SaturatingAdd(stall.orphansSince, 1))
  }

  datatype AcceptOutcome = Applied | AlreadyApplied | Parked(error: BlockIngestError)

  /** `finalized` is the irreversible history since `base`, the point the tier was created at. */
  datatype Chain = Chain(
    base: Point,
    finalized: seq<Block>,
    head: seq<HeadEntry>,
    stall: Option<StallReason>)

  function BlocksOf(head: seq<HeadEntry>): (bs: seq<Block>)
    ensures |bs| == |head|
    ensures forall i :: 0 <= i < |head| ==> bs[i] == head[i].block
  {
    seq(|head|, i requires 0 <= i < |head| => head[i].block)
  }

  /** Both tiers replay. */
  predicate WellFormed(l: Ledger, c: Chain)
  {
    var final := Replay(l, c.base, c.finalized);
    final.Some? && Replay(l, final.value, BlocksOf(c.head)).Some?
  }

  function FinalPoint(l: Ledger, c: Chain): Point
    requires WellFormed(l, c)
  {
    Replay(l, c.base, c.finalized).value
  }

  function HeadPoint(l: Ledger, c: Chain): Point
    requires WellFormed(l, c)
  {
    Replay(l, FinalPoint(l, c), BlocksOf(c.head)).value
  }

  // ---- replay ----

  lemma {:induction false} ReplayConcat(l: Ledger, p: Point, xs: seq<Block>, ys: seq<Block>)
    ensures Replay(l, p, xs + ys)
            == match Replay(l, p, xs) case None => None case Some(q) => Replay(l, q, ys)
    decreases |xs|
  {
    if xs == [] {
      assert xs + ys == ys;
    } else {
      assert (xs + ys)[1..] == xs[1..] + ys;
      match Extend(l, p, xs[0])
      case None =>
      case Some(q) => ReplayConcat(l, q, xs[1..], ys);
    }
  }

  lemma {:induction false} ReplaySnoc(l: Ledger, p: Point, xs: seq<Block>, b: Block)
    ensures Replay(l, p, xs + [b])
            == match Replay(l, p, xs) case None => None case Some(q) => Extend(l, q, b)
  {
    ReplayConcat(l, p, xs, [b]);
    forall q
      ensures Replay(l, q, [b]) == Extend(l, q, b)
    {
      assert [b][1..] == [];
    }
  }

  lemma {:induction false} ReplayPrefix(l: Ledger, p: Point, bs: seq<Block>, k: nat)
    requires k <= |bs| && Replay(l, p, bs).Some?
    ensures Replay(l, p, bs[..k]).Some?
    ensures Replay(l, Replay(l, p, bs[..k]).value, bs[k..]) == Replay(l, p, bs)
  {
    assert bs == bs[..k] + bs[k..];
    ReplayConcat(l, p, bs[..k], bs[k..]);
  }

  /** One more block of a list that replays. */
  lemma {:induction false} ReplayStep(l: Ledger, p: Point, bs: seq<Block>, i: nat, q: Point)
    requires i < |bs| && Replay(l, p, bs).Some?
    requires Replay(l, p, bs[..i]) == Some(q)
    ensures Extend(l, q, bs[i]).Some?
    ensures Replay(l, p, bs[..i + 1]) == Extend(l, q, bs[i])
  {
    hide Replay, Extend;
    assert bs[..i + 1] == bs[..i] + [bs[i]];
    ReplaySnoc(l, p, bs[..i], bs[i]);
    ReplayPrefix(l, p, bs, i + 1);
  }

  function NextId(tip: Option<Tip>): nat
  {
    if tip.None? then GENESIS_BLOCK_ID else tip.value.blockId + 1
  }

  /** The tip reached is the last block replayed. */
  lemma {:induction false} ReplayTip(l: Ledger, p: Point, bs: seq<Block>)
    requires Replay(l, p, bs).Some?
    ensures Replay(l, p, bs).value.tip == if bs == [] then p.tip else Some(TipOf(bs[|bs| - 1]))
    decreases |bs|
  {
    hide ApplyBlock;
    if bs != [] {
      ReplayTip(l, Extend(l, p, bs[0]).value, bs[1..]);
    }
  }

  /** Replayed blocks are self-hashed, hash-linked to their predecessor and numbered
      consecutively from the tip (or genesis). */
  lemma {:induction false} ReplayLinks(l: Ledger, p: Point, bs: seq<Block>)
    requires Replay(l, p, bs).Some?
    ensures forall i :: 0 <= i < |bs| ==> bs[i].header.blockId == NextId(p.tip) + i
    ensures forall i :: 0 <= i < |bs| ==> bs[i].header.hash == RecomputeHash(l, bs[i])
    ensures forall i, j :: 0 <= i < j < |bs| && j == i + 1 ==> bs[j].header.prevBlockHash == bs[i].header.hash
    ensures bs != [] && p.tip.Some? ==> bs[0].header.prevBlockHash == p.tip.value.hash
    decreases |bs|
  {
    if bs != [] {
      var q := Extend(l, p, bs[0]).value;
      ReplayLinks(l, q, bs[1..]);
      forall i | 0 < i < |bs|
        ensures bs[i].header.blockId == NextId(p.tip) + i
        ensures bs[i].header.hash == RecomputeHash(l, bs[i])
      {
        assert bs[i] == bs[1..][i - 1];
      }
      forall i, j | 0 <= i < j < |bs| && j == i + 1
        ensures bs[j].header.prevBlockHash == bs[i].header.hash
      {
        assert bs[j] == bs[1..][j - 1];
        if i > 0 {
          assert bs[i] == bs[1..][i - 1];
        }
      }
    }
  }

  lemma {:induction false} BlocksOfSlices(head: seq<HeadEntry>, k: nat)
    requires k <= |head|
    ensures BlocksOf(head[..k]) == BlocksOf(head)[..k]
    ensures BlocksOf(head[k..]) == BlocksOf(head)[k..]
    ensures BlocksOf(head) == BlocksOf(head[..k]) + BlocksOf(head[k..])
  {
  }

  /** Head ids run consecutively up from the final tip (or genesis). */
  lemma {:induction false} HeadIdsContiguous(l: Ledger, c: Chain)
    requires WellFormed(l, c)
    ensures forall i :: 0 <= i < |c.head| ==> c.head[i].block.header.blockId == NextId(FinalPoint(l, c).tip) + i
    ensures HeadPoint(l, c).tip == if c.head == [] then FinalPoint(l, c).tip else Some(TipOf(c.head[|c.head| - 1].block))
  {
    ReplayLinks(l, FinalPoint(l, c), BlocksOf(c.head));
    ReplayTip(l, FinalPoint(l, c), BlocksOf(c.head));
  }

  // ---- lookup ----

  /** A delivered message names a held entry: same height, and same message id or same hash. */
  predicate Names(e: HeadEntry, msg: MsgId, b: Block)
  {
    e.block.header.blockId == b.header.blockId && (e.msg == msg || e.block.header.hash == b.header.hash)
  }

  function HeadPosition(head: seq<HeadEntry>, msg: MsgId, b: Block): (r: Option<nat>)
    ensures r.Some? ==> r.value < |head| && Names(head[r.value], msg, b)
    ensures r.Some? ==> forall i :: 0 <= i < r.value ==> !Names(head[i], msg, b)
    ensures r.None? ==> forall i :: 0 <= i < |head| ==> !Names(head[i], msg, b)
  {
    if head == [] then None
    else if Names(head[0], msg, b) then Some(0)
    else
      match HeadPosition(head[1..], msg, b)
      case None => None
      case Some(i) => Some(i + 1)
  }

  /** The held entries below height `id`. */
  function Below(head: seq<HeadEntry>, id: nat): seq<HeadEntry>
  {
    if head == [] then []
    else (if head[0].block.header.blockId < id then [head[0]] else []) + Below(head[1..], id)
  }

  /** First held entry whose block hashes to `h`. */
  function PositionByHash(head: seq<HeadEntry>, h: Hash): (r: Option<nat>)
    ensures r.Some? ==> r.value < |head| && head[r.value].block.header.hash == h
    ensures r.Some? ==> forall i :: 0 <= i < r.value ==> head[i].block.header.hash != h
    ensures r.None? ==> forall i :: 0 <= i < |head| ==> head[i].block.header.hash != h
  {
    if head == [] then None
    else if head[0].block.header.hash == h then Some(0)
    else
      match PositionByHash(head[1..], h)
      case None => None
      case Some(i) => Some(i + 1)
  }

  /** With consecutive ids, the entries below a height are a prefix. */
  lemma {:induction false} BelowIsPrefix(head: seq<HeadEntry>, first: nat, id: nat)
    requires forall i :: 0 <= i < |head| ==> head[i].block.header.blockId == first + i
    ensures Below(head, id) == head[..if id <= first then 0 else Min(id - first, |head|)]
    decreases |head|
  {
    if head != [] {
      BelowIsPrefix(head[1..], first + 1, id);
    }
  }

  /** The entries a reorg to height `id` keeps replay on the final tier. */
  lemma {:induction false} BelowReplays(l: Ledger, c: Chain, id: nat)
    requires WellFormed(l, c)
    ensures Replay(l, FinalPoint(l, c), BlocksOf(Below(c.head, id))).Some?
    ensures Below(c.head, id) <= c.head
  {
    HeadIdsContiguous(l, c);
    var first := NextId(FinalPoint(l, c).tip);
    BelowIsPrefix(c.head, first, id);
    var k := if id <= first then 0 else Min(id - first, |c.head|);
    BlocksOfSlices(c.head, k);
    ReplayPrefix(l, FinalPoint(l, c), BlocksOf(c.head), k);
  }

  /** Where a reorg to height `id` cuts the head, and the tip it lands on. */
  lemma {:induction false} ReorgParent(l: Ledger, c: Chain, id: nat) returns (k: nat)
    requires WellFormed(l, c)
    ensures k <= |c.head| && Below(c.head, id) == c.head[..k]
    ensures forall i :: 0 <= i < k ==> c.head[i].block.header.blockId < id
    ensures forall i :: k <= i < |c.head| ==> c.head[i].block.header.blockId >= id
    ensures var parent := Replay(l, FinalPoint(l, c), BlocksOf(Below(c.head, id)));
            && parent.Some?
            && parent.value.tip == if k == 0 then FinalPoint(l, c).tip else Some(TipOf(c.head[k - 1].block))
  {
    hide Replay;
    HeadIdsContiguous(l, c);
    BelowReplays(l, c, id);
    var first := NextId(FinalPoint(l, c).tip);
    BelowIsPrefix(c.head, first, id);
    k := if id <= first then 0 else Min(id - first, |c.head|);
    ReplayTip(l, FinalPoint(l, c), BlocksOf(c.head[..k]));
  }

  // ---- events ----

  datatype Stepped = Stepped(chain: Chain, outcome: AcceptOutcome)

  /** A block at or below the final tip can no longer be adopted. */
  predicate Settled(tip: Option<Tip>, b: Block)
  {
    tip.Some? && b.header.blockId <= tip.value.blockId
  }

  function Adopt(l: Ledger, c: Chain, msg: MsgId, b: Block): Stepped
    requires WellFormed(l, c)
  {
    if HeadPosition(c.head, msg, b).Some? || Settled(FinalPoint(l, c).tip, b) then Stepped(c, AlreadyApplied)
    else
      var kept := Below(c.head, b.header.blockId);
      BelowReplays(l, c, b.header.blockId);
      var parent := Replay(l, FinalPoint(l, c), BlocksOf(kept)).value;
      match ApplyBlock(l, parent.tip, b, parent.state).error
      case None => Stepped(c.(head := kept + [HeadEntry(msg, b)]), Applied)
      case Some(err) => Stepped(c, Parked(err))
  }

  function Produce(l: Ledger, c: Chain, msg: MsgId, b: Block): Stepped
    requires WellFormed(l, c)
  {
    if Settled(HeadPoint(l, c).tip, b) then Stepped(c, AlreadyApplied) else Adopt(l, c, msg, b)
  }

  function RevertOrphan(c: Chain, msg: MsgId, b: Block): Chain
  {
    match HeadPosition(c.head, msg, b)
    case None => c
    case Some(i) => c.(head := c.head[..i])
  }

  datatype Message = Message(msg: MsgId, block: Block)

  function PositionOf(head: seq<HeadEntry>, m: Message): Option<nat>
  {
    HeadPosition(head, m.msg, m.block)
  }

  /** The least held position any of `orphans` names. */
  function EarliestOrphan(head: seq<HeadEntry>, orphans: seq<Message>): (r: Option<nat>)
    ensures r.None? <==> forall m :: m in orphans ==> PositionOf(head, m).None?
    ensures r.Some? ==> r.value < |head| && exists m :: m in orphans && PositionOf(head, m) == r
    ensures r.Some? ==> forall m :: m in orphans && PositionOf(head, m).Some? ==> r.value <= PositionOf(head, m).value
  {
    if orphans == [] then None
    else
      var first := PositionOf(head, orphans[0]);
      assert orphans == [orphans[0]] + orphans[1..];
      var rest := EarliestOrphan(head, orphans[1..]);
      if first.None? then rest
      else if rest.None? then first
      else Some(Min(first.value, rest.value))
  }

  function RevertAll(c: Chain, orphans: seq<Message>): Chain
  {
    match EarliestOrphan(c.head, orphans)
    case None => c
    case Some(i) => c.(head := c.head[..i])
  }

  datatype Updated = Updated(chain: Chain, outcomes: seq<AcceptOutcome>)

  function AdoptAll(l: Ledger, c: Chain, adopted: seq<Message>): (r: Updated)
    requires WellFormed(l, c)
    ensures WellFormed(l, r.chain)
    ensures |r.outcomes| == |adopted|
    decreases |adopted|
  {
    if adopted == [] then Updated(c, [])
    else
      var last := |adopted| - 1;
      var before := AdoptAll(l, c, adopted[..last]);
      var step := Adopt(l, before.chain, adopted[last].msg, adopted[last].block);
      AdoptWellFormed(l, before.chain, adopted[last].msg, adopted[last].block);
      Updated(step.chain, before.outcomes + [step.outcome])
  }

  /** One channel update: all orphans first, then all adoptions in order. */
  function ChannelUpdate(l: Ledger, c: Chain, orphaned: seq<Message>, adopted: seq<Message>): (r: Updated)
    requires WellFormed(l, c)
    ensures WellFormed(l, r.chain)
  {
    RevertAllWellFormed(l, c, orphaned);
    AdoptAll(l, RevertAll(c, orphaned), adopted)
  }

  /** Moves the first `k` head blocks into the final tier. */
  function FinalizePrefix(c: Chain, k: nat): Chain
    requires k <= |c.head|
  {
    c.(finalized := c.finalized + BlocksOf(c.head[..k]), head := c.head[k..], stall := None)
  }

  /** A finalized block that is already behind the final tip, or is the tip. */
  predicate Redelivered(tip: Option<Tip>, b: Block)
  {
    && tip.Some?
    && (b.header.blockId < tip.value.blockId
        || (b.header.blockId == tip.value.blockId && b.header.hash == tip.value.hash))
  }

  function RecordStall(stall: Option<StallReason>, b: Block, slot: Slot, error: BlockIngestError): StallReason
  {
    match stall
    case None => NewStall(Some(b.header), slot, error)
    case Some(s) => Escalate(s)
  }

  function FinalizeDirect(l: Ledger, c: Chain, b: Block, slot: Slot): Stepped
    requires WellFormed(l, c)
  {
    var final := FinalPoint(l, c);
    if Redelivered(final.tip, b) then Stepped(c, AlreadyApplied)
    else
      match ApplyBlock(l, final.tip, b, final.state).error
      case None => Stepped(c.(finalized := c.finalized + [b], head := [], stall := None), Applied)
      case Some(err) => Stepped(c.(stall := Some(RecordStall(c.stall, b, slot, err))), Parked(err))
  }

  function FinalizeBlock(l: Ledger, c: Chain, msg: MsgId, b: Block, slot: Slot): Stepped
    requires WellFormed(l, c)
  {
    match HeadPosition(c.head, msg, b)
    case Some(i) => Stepped(FinalizePrefix(c, i + 1), Applied)
    case None =>
      match PositionByHash(c.head, b.header.prevBlockHash)
      case None => FinalizeDirect(l, c, b, slot)
      case Some(i) =>
        FinalizePrefixKeepsHead(l, c, i + 1);
        FinalizeDirect(l, FinalizePrefix(c, i + 1), b, slot)
  }

  /** Restored entries carry the block hash as their message id. */
  function Restore(l: Ledger, c: Chain, b: Block): Option<Chain>
    requires WellFormed(l, c)
  {
    if Extend(l, HeadPoint(l, c), b).Some? then Some(c.(head := c.head + [HeadEntry(b.header.hash, b)])) else None
  }

  function FromFinal(p: Point): Chain
  {
    Chain(p, [], [], None)
  }

  // ---- every event keeps both tiers replayable ----

  lemma {:induction false} BlocksOfSnoc(head: seq<HeadEntry>, e: HeadEntry)
    ensures BlocksOf(head + [e]) == BlocksOf(head) + [e.block]
  {
  }

  lemma {:induction false} AdoptWellFormed(l: Ledger, c: Chain, msg: MsgId, b: Block)
    requires WellFormed(l, c)
    ensures WellFormed(l, Adopt(l, c, msg, b).chain)
    ensures Adopt(l, c, msg, b).outcome.Applied? ==>
              var parent := Replay(l, FinalPoint(l, c), BlocksOf(Below(c.head, b.header.blockId)));
              parent.Some? && Extend(l, parent.value, b) == Some(HeadPoint(l, Adopt(l, c, msg, b).chain))
  {
    hide Replay, ApplyBlock;
    var step := Adopt(l, c, msg, b);
    if step.outcome.Applied? {
      var kept := Below(c.head, b.header.blockId);
      BelowReplays(l, c, b.header.blockId);
      BlocksOfSnoc(kept, HeadEntry(msg, b));
      ReplaySnoc(l, FinalPoint(l, c), BlocksOf(kept), b);
    }
  }

  lemma {:induction false} TruncateWellFormed(l: Ledger, c: Chain, k: nat)
    requires WellFormed(l, c) && k <= |c.head|
    ensures WellFormed(l, c.(head := c.head[..k]))
  {
    BlocksOfSlices(c.head, k);
    ReplayPrefix(l, FinalPoint(l, c), BlocksOf(c.head), k);
  }

  lemma {:induction false} RevertAllWellFormed(l: Ledger, c: Chain, orphans: seq<Message>)
    requires WellFormed(l, c)
    ensures WellFormed(l, RevertAll(c, orphans))
  {
    match EarliestOrphan(c.head, orphans)
    case None =>
    case Some(i) => TruncateWellFormed(l, c, i);
  }

  /** Finalizing a held prefix moves the boundary between the tiers and nothing else. */
  lemma {:induction false} FinalizePrefixKeepsHead(l: Ledger, c: Chain, k: nat)
    requires WellFormed(l, c) && k <= |c.head|
    ensures WellFormed(l, FinalizePrefix(c, k))
    ensures HeadPoint(l, FinalizePrefix(c, k)) == HeadPoint(l, c)
  {
    BlocksOfSlices(c.head, k);
    ReplayPrefix(l, FinalPoint(l, c), BlocksOf(c.head), k);
    ReplayConcat(l, c.base, c.finalized, BlocksOf(c.head[..k]));
  }

  lemma {:induction false} FinalizeDirectWellFormed(l: Ledger, c: Chain, b: Block, slot: Slot)
    requires WellFormed(l, c)
    ensures WellFormed(l, FinalizeDirect(l, c, b, slot).chain)
  {
    ReplaySnoc(l, c.base, c.finalized, b);
  }

  lemma {:induction false} FinalizeBlockWellFormed(l: Ledger, c: Chain, msg: MsgId, b: Block, slot: Slot)
    requires WellFormed(l, c)
    ensures WellFormed(l, FinalizeBlock(l, c, msg, b, slot).chain)
  {
    hide Replay, ApplyBlock;
    match HeadPosition(c.head, msg, b)
    case Some(i) => FinalizePrefixKeepsHead(l, c, i + 1);
    case None =>
      match PositionByHash(c.head, b.header.prevBlockHash)
      case None => FinalizeDirectWellFormed(l, c, b, slot);
      case Some(i) =>
        FinalizePrefixKeepsHead(l, c, i + 1);
        FinalizeDirectWellFormed(l, FinalizePrefix(c, i + 1), b, slot);
  }

  lemma {:induction false} RestoreWellFormed(l: Ledger, c: Chain, b: Block)
    requires WellFormed(l, c)
    requires Restore(l, c, b).Some?
    ensures WellFormed(l, Restore(l, c, b).value)
    ensures Extend(l, HeadPoint(l, c), b) == Some(HeadPoint(l, Restore(l, c, b).value))
    ensures FinalPoint(l, Restore(l, c, b).value) == FinalPoint(l, c)
  {
    hide Replay, Extend;
    BlocksOfSnoc(c.head, HeadEntry(b.header.hash, b));
    ReplaySnoc(l, FinalPoint(l, c), BlocksOf(c.head), b);
  }
}
