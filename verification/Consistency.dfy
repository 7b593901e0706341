/** Judging from a channel's messages whether it is the one a store was filled from
    (`lez/chain_state/src/consistency.rs`). */
module Consistency {
  import opened Prelude
  import opened LedgerState

  datatype BlockRef = BlockRef(id: nat, hash: Hash)

  /** A channel message: an inscription, which decodes to a block or does not, or something else. */
  datatype ZoneMessage = Inscription(decoded: Option<BlockRef>) | OtherMessage

  datatype Observation = Observation(msg: ZoneMessage, slot: Slot)

  datatype ChainMismatch =
    | BlockMismatch(ours: BlockRef, channel: BlockRef)
    | ReinscribedBlock(served: BlockRef, slot: Slot, anchorSlot: Slot)
    | AnchorSlotChanged(at: Slot)
    | ChannelMissing
    | ChannelBehindAnchor(tipSlot: Slot, behind: Slot)

  datatype ChainConsistency = Consistent | Inconclusive | Inconsistent(mismatch: ChainMismatch)

  datatype Anchor = Anchor(slot: Slot, block: Option<BlockRef>)

  datatype AnchorProbe = SameChain | Mismatch(mismatch: ChainMismatch) | Bail | KeepLooking

  function BlockIn(o: Observation): Option<BlockRef>
  {
    if o.msg.Inscription? then o.msg.decoded else None
  }

  function Probe(a: Anchor, o: Observation): AnchorProbe
  {
    if o.slot < a.slot then KeepLooking
    else if a.block.None? then
      if o.slot == a.slot then SameChain else Mismatch(AnchorSlotChanged(a.slot))
    else
      match BlockIn(o)
      case None => KeepLooking
      case Some(b) =>
        if b.id == a.block.value.id then
          if b.hash == a.block.value.hash then SameChain else Mismatch(BlockMismatch(a.block.value, b))
        else if b.id > a.block.value.id then Bail
        else if o.slot == a.slot then KeepLooking
        else Mismatch(ReinscribedBlock(b, o.slot, a.slot))
  }

  function FrontierVerdict(anchorSlot: Slot, tip: Option<Slot>): Option<ChainMismatch>
  {
    match tip
    case None => Some(ChannelMissing)
    case Some(t) => if t < anchorSlot then Some(ChannelBehindAnchor(t, anchorSlot)) else None
  }

  function VerdictOf(probe: AnchorProbe): Option<ChainConsistency>
  {
    match probe
    case SameChain => Some(Consistent)
    case Mismatch(m) => Some(Inconsistent(m))
    case Bail => Some(Inconclusive)
    case KeepLooking => None
  }

  // ---- what a message is evidence of ----

  /** The anchored inscription, or, for an anchor without a header, any message at its slot. */
  ghost predicate ShowsAnchor(a: Anchor, o: Observation)
  {
    o.slot >= a.slot && if a.block.None? then o.slot == a.slot else BlockIn(o) == a.block
  }

  /** A different block at the anchor's id, a lower id past its slot, or, for an anchor without a
      header, the first message past its slot. */
  ghost predicate Contradicts(a: Anchor, o: Observation)
  {
    if a.block.None? then o.slot > a.slot
    else
      && o.slot >= a.slot && BlockIn(o).Some?
      && var b, anchored := BlockIn(o).value, a.block.value;
         (b.id == anchored.id && b.hash != anchored.hash) || (b.id < anchored.id && o.slot > a.slot)
  }

  /** A block above the anchor's id: too late to find the anchor. */
  ghost predicate PastAnchor(a: Anchor, o: Observation)
  {
    a.block.Some? && o.slot >= a.slot && BlockIn(o).Some? && BlockIn(o).value.id > a.block.value.id
  }

  class AnchorConsistencyCheck {
    const anchor: Anchor
    var verdict: Option<ChainConsistency>

    constructor (anchor: Anchor)
      ensures this.anchor == anchor && verdict.None?
    {
      this.anchor := anchor;
      verdict := None;
    }

    /** Refuses a channel that is missing or ends before the anchor slot, and nothing else. */
    method CheckFrontier(tip: Option<Slot>)
      modifies this
      ensures old(verdict).Some? ==> verdict == old(verdict)
      ensures old(verdict).None? ==>
                && (verdict.None? <==> tip.Some? && anchor.slot <= tip.value)
                && (verdict.Some? ==>
                      verdict == Some(Inconsistent(
                        if tip.None? then ChannelMissing else ChannelBehindAnchor(tip.value, anchor.slot))))
      ensures verdict == AfterFrontier(anchor, old(verdict), tip)
    {
      if verdict.None? {
        var mismatch := FrontierVerdict(anchor.slot, tip);
        verdict := if mismatch.Some? then Some(Inconsistent(mismatch.value)) else None;
      }
    }

    /** A standing verdict stays; otherwise the message decides exactly as what it is evidence of. */
    method Observe(o: Observation) returns (current: Option<ChainConsistency>)
      modifies this
      ensures old(verdict).Some? ==> verdict == old(verdict)
      ensures old(verdict).None? ==>
                && (verdict == Some(Consistent) <==> ShowsAnchor(anchor, o))
                && (verdict == Some(Inconclusive) <==> PastAnchor(anchor, o))
                && (verdict.Some? && verdict.value.Inconsistent? <==> Contradicts(anchor, o))
                && (verdict.Some? && verdict.value.Inconsistent? ==>
                      verdict.value.mismatch
                      == if anchor.block.None? then AnchorSlotChanged(anchor.slot)
                         else if BlockIn(o).value.id == anchor.block.value.id then BlockMismatch(anchor.block.value, BlockIn(o).value)
                         else ReinscribedBlock(BlockIn(o).value, o.slot, anchor.slot))
      ensures verdict == AfterMessage(anchor, old(verdict), o)
      ensures current == verdict
    {
      if verdict.None? {
        verdict := VerdictOf(Probe(anchor, o));
      }
      current := verdict;
    }

    function Finish(): (r: ChainConsistency)
      reads this
      ensures r.Inconsistent? <==> verdict.Some? && verdict.value.Inconsistent?
    {
      if verdict.Some? then verdict.value else Inconclusive
    }
  }

  function AfterFrontier(a: Anchor, v: Option<ChainConsistency>, tip: Option<Slot>): Option<ChainConsistency>
  {
    if v.Some? then v
    else
      match FrontierVerdict(a.slot, tip)
      case Some(m) => Some(Inconsistent(m))
      case None => None
  }

  function AfterMessage(a: Anchor, v: Option<ChainConsistency>, o: Observation): Option<ChainConsistency>
  {
    if v.Some? then v else VerdictOf(Probe(a, o))
  }

  /** The verdict after reading the channel tip, if it could be read, and then `stream`. */
  function Scan(a: Anchor, tip: Option<Option<Slot>>, stream: seq<Observation>): Option<ChainConsistency>
    decreases |stream|
  {
    if stream == [] then (if tip.Some? then AfterFrontier(a, None, tip.value) else None)
    else AfterMessage(a, Scan(a, tip, stream[..|stream| - 1]), stream[|stream| - 1])
  }

  /** `verify_chain_consistency` on a channel whose tip reads as `tip`, if it can be read, and that
      serves `stream` before it ends, fails or times out: the frontier first, then messages until one
      decides. An anchor at slot zero is never scanned for. */
  method VerifyChainConsistency(
    anchor: Anchor, tip: Option<Option<Slot>>, stream: seq<Observation>) returns (r: ChainConsistency)
    ensures var verdict := Scan(anchor, tip, if anchor.slot == 0 then [] else stream);
            r == if verdict.Some? then verdict.value else Inconclusive
  {
    var check := new AnchorConsistencyCheck(anchor);
    if tip.Some? {
      check.CheckFrontier(tip.value);
    }
    assert check.verdict == Scan(anchor, tip, []);
    if check.verdict.Some? {
      assert stream[..0] == [];
      VerdictIsFinal(anchor, tip, stream, 0);
      return check.Finish();
    }
    if anchor.slot == 0 {
      return Inconclusive;
    }
    assert stream[..0] == [];
    for i := 0 to |stream|
      invariant check.anchor == anchor && check.verdict.None? && Scan(anchor, tip, stream[..i]).None?
    {
      assert stream[..i + 1][..i] == stream[..i];
      var current := check.Observe(stream[i]);
      if current.Some? {
        VerdictIsFinal(anchor, tip, stream, i + 1);
        return check.Finish();
      }
    }
    assert stream[..|stream|] == stream;
    r := check.Finish();
  }

  /** A verdict, once reached, never changes. */
  lemma {:induction false} VerdictIsFinal(a: Anchor, tip: Option<Option<Slot>>, stream: seq<Observation>, n: nat)
    requires n <= |stream| && Scan(a, tip, stream[..n]).Some?
    ensures Scan(a, tip, stream) == Scan(a, tip, stream[..n])
    decreases |stream|
  {
    if n == |stream| {
      assert stream[..n] == stream;
    } else {
      assert stream[..|stream| - 1][..n] == stream[..n];
      VerdictIsFinal(a, tip, stream[..|stream| - 1], n);
    }
  }

  /** The first `n` messages say nothing. */
  ghost predicate Quiet(a: Anchor, stream: seq<Observation>, n: nat)
    requires n <= |stream|
  {
    forall i :: 0 <= i < n ==> Probe(a, stream[i]).KeepLooking?
  }

  /** The frontier has nothing against the channel. */
  predicate FrontierPasses(a: Anchor, tip: Option<Option<Slot>>)
  {
    tip.None? || (tip.value.Some? && a.slot <= tip.value.value)
  }

  lemma {:induction false} QuietScan(a: Anchor, tip: Option<Option<Slot>>, stream: seq<Observation>)
    requires FrontierPasses(a, tip) && Quiet(a, stream, |stream|)
    ensures Scan(a, tip, stream).None?
    decreases |stream|
  {
    if stream != [] {
      QuietScan(a, tip, stream[..|stream| - 1]);
      assert Probe(a, stream[|stream| - 1]).KeepLooking?;
    }
  }

  /** The first message that is not passed over decides. */
  lemma {:induction false} FirstDecisiveMessage(a: Anchor, tip: Option<Option<Slot>>, stream: seq<Observation>, k: nat)
    requires FrontierPasses(a, tip)
    requires k < |stream| && Quiet(a, stream, k) && !Probe(a, stream[k]).KeepLooking?
    ensures Scan(a, tip, stream) == VerdictOf(Probe(a, stream[k]))
  {
    QuietScan(a, tip, stream[..k]);
    assert stream[..k + 1][..k] == stream[..k];
    VerdictIsFinal(a, tip, stream, k + 1);
  }

  function SlotOf(o: Observation): Slot
  {
    o.slot
  }

  /** The anchored inscription is still message `k` of the channel: at its slot, with its id and
      hash if it has a header, and with only lower ids ahead of it in that slot. */
  ghost predicate StillAnchored(a: Anchor, stream: seq<Observation>, k: nat)
  {
    && k < |stream|
    && stream[k].slot == a.slot
    && (a.block.Some? ==>
          && BlockIn(stream[k]) == a.block
          && forall i :: 0 <= i < k && stream[i].slot == a.slot && BlockIn(stream[i]).Some? ==>
               BlockIn(stream[i]).value.id < a.block.value.id)
  }

  /** On the chain the store was built from the check never accuses: every prefix of every
      slot-ordered stream that still carries the anchor is undetermined or consistent, and it is
      consistent once the anchor has been read. */
  lemma {:induction false} SameChainNeverInconsistent(
    a: Anchor, tip: Option<Option<Slot>>, stream: seq<Observation>, k: nat, n: nat)
    requires FrontierPasses(a, tip)
    requires Ascending(SlotOf, stream) && StillAnchored(a, stream, k)
    requires n <= |stream|
    ensures Scan(a, tip, stream[..n]).None? || Scan(a, tip, stream[..n]) == Some(Consistent)
    ensures n > k ==> Scan(a, tip, stream[..n]) == Some(Consistent)
  {
    var first := FirstAtAnchorSlot(a, stream, k);
    assert Quiet(a, stream[..n], Min(n, first));
    if n <= first {
      QuietScan(a, tip, stream[..n]);
    } else {
      FirstDecisiveMessage(a, tip, stream[..n], first);
    }
  }

  /** Where the anchor is recognised: at its own message, or, for an anchor without a header, at the
      first message of its slot. */
  lemma {:induction false} FirstAtAnchorSlot(a: Anchor, stream: seq<Observation>, k: nat) returns (first: nat)
    requires Ascending(SlotOf, stream) && StillAnchored(a, stream, k)
    ensures first <= k && Quiet(a, stream, first) && Probe(a, stream[first]).SameChain?
    decreases k
  {
    first := k;
    if a.block.None? && k > 0 && stream[k - 1].slot == a.slot {
      first := FirstAtAnchorSlot(a, stream, k - 1);
    } else if a.block.None? && k > 0 {
      assert stream[k - 1].slot < a.slot;
      assert forall i :: 0 <= i < k ==> stream[i].slot <= stream[k - 1].slot;
    }
  }

  /** A reset channel, one that serves only later slots, is judged by the first block it serves:
      refused exactly if that is below the anchor's id or is a different block at that id, undecided
      exactly if it is above, and taken for the same chain exactly if it is the anchor block. */
  lemma {:induction false} ResetVerdicts(a: Anchor, tip: Option<Option<Slot>>, stream: seq<Observation>, k: nat)
    requires FrontierPasses(a, tip) && a.block.Some?
    requires k < |stream| && BlockIn(stream[k]).Some? && forall i :: 0 <= i < k ==> BlockIn(stream[i]).None?
    requires forall i :: 0 <= i < |stream| ==> stream[i].slot > a.slot
    ensures var b, anchored, verdict := BlockIn(stream[k]).value, a.block.value, Scan(a, tip, stream);
            && verdict.Some?
            && (verdict.value.Inconsistent? <==> b.id < anchored.id || (b.id == anchored.id && b.hash != anchored.hash))
            && (verdict.value.Inconclusive? <==> b.id > anchored.id)
            && (verdict.value.Consistent? <==> b == anchored)
  {
    FirstDecisiveMessage(a, tip, stream, k);
  }

  /** A chain that re-inscribes the anchor block first thing, at a later slot, passes for the one the
      store was built from. */
  lemma {:induction false} ReinscribedAnchorPasses(b: BlockRef, slot: Slot, later: Slot, rest: seq<Observation>)
    requires later > slot
    ensures Scan(Anchor(slot, Some(b)), None, [Observation(Inscription(Some(b)), later)] + rest) == Some(Consistent)
  {
    FirstDecisiveMessage(Anchor(slot, Some(b)), None, [Observation(Inscription(Some(b)), later)] + rest, 0);
  }

  /** A channel that is missing or ends before the anchor slot is refused whatever it serves. */
  lemma {:induction false} FrontierRefuses(a: Anchor, tip: Option<Slot>, stream: seq<Observation>)
    requires tip.None? || tip.value < a.slot
    ensures Scan(a, Some(tip), stream).Some? && Scan(a, Some(tip), stream).value.Inconsistent?
  {
    assert stream[..0] == [];
    VerdictIsFinal(a, Some(tip), stream, 0);
  }
}
