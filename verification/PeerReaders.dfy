/** The two readers of a peer's channel, in place: the sequencer's watcher
    (`lez/sequencer/core/src/cross_zone_watcher.rs`) and the indexer's verifier cache
    (`lez/indexer/core/src/cross_zone_verifier.rs`). */
module PeerReaders {
  import opened Prelude
  import opened LedgerState
  import opened Blocks
  import opened PeerAcceptance

  /** A channel message: an inscription that decodes to a block or does not, or something else. */
  datatype PeerMessage = BlockMessage(block: Block) | Undecodable | OtherMessage

  datatype Item = Item(msg: PeerMessage, slot: Slot)

  datatype PassOutcome =
    | Drained
    | Stranded
    | UndecodableAt(slot: Slot)
    | UndeliveredAt(at: Slot)

  function BlocksIn(items: seq<Item>): seq<Block>
  {
    if items == [] then []
    else
      BlocksIn(items[..|items| - 1])
      + match items[|items| - 1].msg { case BlockMessage(b) => [b] case _ => [] }
  }

  /** What the watcher does with a block, given the run it has delivered so far. */
  function LinkOf(l: Ledger, key: Option<Data>, run: seq<Block>, b: Block): Option<Link>
  {
    match ScreenPeerBlock(l, b, key)
    case Failure(_) => None
    case Success(h) => Some(LinkToTip(RunTip(run), b, h))
  }

  /** A message that ends a pass: it does not decode, or it is the next block and its deliveries or
      its tip cannot be recorded. */
  predicate Fails(l: Ledger, key: Option<Data>, recorded: Block -> bool, run: seq<Block>, m: PeerMessage)
  {
    match m
    case BlockMessage(b) => LinkOf(l, key, run, b).Some? && LinkOf(l, key, run, b).value.Next? && !recorded(b)
    case Undecodable => true
    case OtherMessage => false
  }

  /** A block that is read past: refused, or off the chain. */
  predicate Skips(l: Ledger, key: Option<Data>, run: seq<Block>, m: PeerMessage)
  {
    m.BlockMessage? && (LinkOf(l, key, run, m.block).None? || LinkOf(l, key, run, m.block).value.OffTheChain?)
  }

  /** The run delivered after the history and the first `n` items. */
  function RunAt(l: Ledger, key: Option<Data>, history: seq<Block>, items: seq<Item>, n: nat): seq<Block>
    requires n <= |items|
  {
    Accepted(l, key, history + BlocksIn(items[..n]))
  }

  /** The cursor once item `n` has been begun: the last slot before the one in progress. */
  function CursorAt(cursor: Option<Slot>, items: seq<Item>, n: nat): Option<Slot>
    requires n < |items|
  {
    if n == 0 then cursor
    else if items[n].slot != items[n - 1].slot then Some(items[n - 1].slot)
    else CursorAt(cursor, items, n - 1)
  }

  /** The cursor after a pass that stopped at item `stop`, or that drained. */
  function CursorAfter(cursor: Option<Slot>, items: seq<Item>, stop: nat): Option<Slot>
    requires stop <= |items|
  {
    if stop < |items| then CursorAt(cursor, items, stop)
    else if items == [] then cursor
    else Some(items[|items| - 1].slot)
  }

  lemma {:induction false} RunStep(l: Ledger, key: Option<Data>, history: seq<Block>, items: seq<Item>, n: nat)
    requires n < |items|
    ensures RunAt(l, key, history, items, n + 1)
            == match items[n].msg
               case BlockMessage(b) => Watch(l, key, RunAt(l, key, history, items, n), b)
               case _ => RunAt(l, key, history, items, n)
  {
    assert items[..n + 1][..n] == items[..n];
    var read := history + BlocksIn(items[..n]);
    match items[n].msg
    case BlockMessage(b) =>
      assert history + BlocksIn(items[..n + 1]) == read + [b];
      assert (read + [b])[..|read|] == read;
    case _ =>
      assert BlocksIn(items[..n + 1]) == BlocksIn(items[..n]);
  }

  datatype Placement = Placed(tip: PeerChainTip) | Unrecorded | PassedOver | Ignored

  /** One decoded block: placed on the run with its deliveries recorded, failing to be recorded, passed
      over, or seen before. */
  method PlaceBlock(
    l: Ledger, key: Option<Data>, recorded: Block -> bool, ghost run: seq<Block>, tip: Option<PeerChainTip>, b: Block)
    returns (r: Placement)
    requires tip == RunTip(run)
    ensures r.Unrecorded? <==> Fails(l, key, recorded, run, BlockMessage(b))
    ensures r.PassedOver? <==> Skips(l, key, run, BlockMessage(b))
    ensures r.Placed? ==> Authentic(l, b, key) && Watch(l, key, run, b) == run + [b] && RunTip(run + [b]) == Some(r.tip)
    ensures r.PassedOver? || r.Ignored? ==> Watch(l, key, run, b) == run
  {
    ScreenedIff(l, b, key);
    var screened := ScreenPeerBlock(l, b, key);
    if screened.Failure? {
      return PassedOver;
    }
    match LinkToTip(tip, b, screened.value)
    case AlreadySeen(_) => r := Ignored;
    case OffTheChain(_) => r := PassedOver;
    case Next(hash) => r := if recorded(b) then Placed(PeerChainTip(b.header.blockId, hash)) else Unrecorded;
  }

  /** The first `n` items do not end the pass. */
  ghost predicate NoneFails(
    l: Ledger, key: Option<Data>, recorded: Block -> bool, history: seq<Block>, items: seq<Item>, n: nat)
    requires n <= |items|
  {
    forall i :: 0 <= i < n ==> !Fails(l, key, recorded, RunAt(l, key, history, items, i), items[i].msg)
  }

  lemma {:induction false} NoneFailsStep(
    l: Ledger, key: Option<Data>, recorded: Block -> bool, history: seq<Block>, items: seq<Item>, n: nat)
    requires n < |items| && NoneFails(l, key, recorded, history, items, n)
    requires !Fails(l, key, recorded, RunAt(l, key, history, items, n), items[n].msg)
    ensures NoneFails(l, key, recorded, history, items, n + 1)
  {
    hide Fails, RunAt;
  }

  /** How the outcome of a pass tells where it stopped. */
  ghost function OutcomeOf(stranded: bool, items: seq<Item>, stop: nat): PassOutcome
    requires stop <= |items|
  {
    if stop == |items| then (if stranded then Stranded else Drained)
    else if items[stop].msg.Undecodable? then UndecodableAt(items[stop].slot)
    else UndeliveredAt(items[stop].slot)
  }

  /** One pass of the watcher, resumed from a stored tip and cursor. `history` is every block read in
      earlier passes, re-reads included. The pass handles the items up to the first failing one and
      holds the cursor before its slot; what it delivers is what folding everything read so far adds. */
  method ConsumePeerStream(
    l: Ledger, key: Option<Data>, recorded: Block -> bool, ghost history: seq<Block>,
    resumeTip: Option<PeerChainTip>, resumeCursor: Option<Slot>, items: seq<Item>)
    returns (tip: Option<PeerChainTip>, cursor: Option<Slot>, delivered: seq<Block>, outcome: PassOutcome, stop: nat)
    requires resumeTip == RunTip(Accepted(l, key, history))
    ensures stop <= |items| && NoneFails(l, key, recorded, history, items, stop)
    ensures stop < |items| ==> Fails(l, key, recorded, RunAt(l, key, history, items, stop), items[stop].msg)
    ensures Accepted(l, key, history) + delivered == RunAt(l, key, history, items, stop)
    ensures forall b :: b in delivered ==> Authentic(l, b, key)
    ensures tip == RunTip(RunAt(l, key, history, items, stop))
    ensures cursor == CursorAfter(resumeCursor, items, stop)
    ensures outcome == OutcomeOf(delivered == [] && SkippedSome(l, key, history, items, stop), items, stop)
  {
    NothingRead(l, key, history, items);
    hide Fails, Skips, Watch, RunAt, RunTip, NoneFails, SkippedSome, Authentic;
    assert NoneFails(l, key, recorded, history, items, 0) by { NothingFailed(l, key, recorded, history, items); }
    tip, cursor, delivered, stop := resumeTip, resumeCursor, [], 0;
    var inProgress: Option<Slot>, skipped := None, false;
    while stop < |items|
      invariant stop <= |items| && NoneFails(l, key, recorded, history, items, stop)
      invariant Accepted(l, key, history) + delivered == RunAt(l, key, history, items, stop)
      invariant forall b :: b in delivered ==> Authentic(l, b, key)
      invariant tip == RunTip(RunAt(l, key, history, items, stop))
      invariant inProgress == if stop == 0 then None else Some(items[stop - 1].slot)
      invariant cursor == if stop == 0 then resumeCursor else CursorAt(resumeCursor, items, stop - 1)
      invariant skipped <==> SkippedSome(l, key, history, items, stop)
      decreases |items| - stop
    {
      var slot := items[stop].slot;
      if inProgress != Some(slot) {
        cursor := if inProgress.Some? then inProgress else cursor;
        inProgress := Some(slot);
      }
      RunStep(l, key, history, items, stop);
      SkippedStep(l, key, history, items, stop);
      match items[stop].msg {
        case OtherMessage =>
          OthersPass(l, key, recorded, RunAt(l, key, history, items, stop));
        case Undecodable =>
          OthersPass(l, key, recorded, RunAt(l, key, history, items, stop));
          return tip, cursor, delivered, UndecodableAt(slot), stop;
        case BlockMessage(b) =>
          var placement := PlaceBlock(l, key, recorded, RunAt(l, key, history, items, stop), tip, b);
          if placement.Unrecorded? {
            return tip, cursor, delivered, UndeliveredAt(slot), stop;
          }
          skipped := skipped || placement.PassedOver?;
          if placement.Placed? {
            delivered := delivered + [b];
            tip := Some(placement.tip);
          }
      }
      NoneFailsStep(l, key, recorded, history, items, stop);
      stop := stop + 1;
    }
    cursor := if inProgress.Some? then inProgress else cursor;
    outcome := if delivered == [] && skipped then Stranded else Drained;
  }

  lemma {:induction false} NothingRead(l: Ledger, key: Option<Data>, history: seq<Block>, items: seq<Item>)
    ensures RunAt(l, key, history, items, 0) == Accepted(l, key, history)
    ensures !SkippedSome(l, key, history, items, 0)
  {
    assert history + BlocksIn(items[..0]) == history;
  }

  lemma {:induction false} NothingFailed(
    l: Ledger, key: Option<Data>, recorded: Block -> bool, history: seq<Block>, items: seq<Item>)
    ensures NoneFails(l, key, recorded, history, items, 0)
  {
  }

  lemma {:induction false} OthersPass(l: Ledger, key: Option<Data>, recorded: Block -> bool, run: seq<Block>)
    ensures !Fails(l, key, recorded, run, OtherMessage) && Fails(l, key, recorded, run, Undecodable)
    ensures !Skips(l, key, run, OtherMessage) && !Skips(l, key, run, Undecodable)
  {
  }

  ghost predicate SkippedSome(l: Ledger, key: Option<Data>, history: seq<Block>, items: seq<Item>, n: nat)
    requires n <= |items|
  {
    exists i :: 0 <= i < n && Skips(l, key, RunAt(l, key, history, items, i), items[i].msg)
  }

  lemma {:induction false} SkippedStep(l: Ledger, key: Option<Data>, history: seq<Block>, items: seq<Item>, n: nat)
    requires n < |items|
    ensures SkippedSome(l, key, history, items, n + 1)
            <==> SkippedSome(l, key, history, items, n) || Skips(l, key, RunAt(l, key, history, items, n), items[n].msg)
  {
    hide Skips, RunAt;
  }

  function SlotOf(item: Item): Slot
  {
    item.slot
  }

  lemma {:induction false} CursorBelow(cursor: Option<Slot>, items: seq<Item>, n: nat)
    requires n < |items| && Ascending(SlotOf, items) && (cursor.Some? ==> forall i :: 0 <= i < |items| ==> cursor.value < items[i].slot)
    ensures CursorAt(cursor, items, n).Some? ==> CursorAt(cursor, items, n).value < items[n].slot
  {
    if n > 0 && items[n].slot == items[n - 1].slot {
      CursorBelow(cursor, items, n - 1);
    }
  }

  lemma {:induction false} CursorReaches(cursor: Option<Slot>, items: seq<Item>, n: nat, i: nat)
    requires n < |items| && Ascending(SlotOf, items) && i < n && items[i].slot < items[n].slot
    ensures CursorAt(cursor, items, n).Some? && items[i].slot <= CursorAt(cursor, items, n).value
  {
    if items[n].slot == items[n - 1].slot {
      CursorReaches(cursor, items, n - 1, i);
    }
  }

  /** Where a pass leaves the cursor: a message lies at or below it exactly if the pass drained or the
      message is of an earlier slot than the one it stopped in. So everything at or below the cursor has
      been handled, reading on from it serves every unhandled message again, and no slot that was read
      whole is read twice. */
  lemma {:induction false} NothingIsLost(cursor: Option<Slot>, items: seq<Item>, stop: nat, i: nat)
    requires stop <= |items| && i < |items| && Ascending(SlotOf, items)
    requires cursor.Some? ==> forall j :: 0 <= j < |items| ==> cursor.value < items[j].slot
    ensures var after := CursorAfter(cursor, items, stop);
            after.Some? && items[i].slot <= after.value <==> stop == |items| || items[i].slot < items[stop].slot
    ensures CursorAfter(cursor, items, stop).Some? && items[i].slot <= CursorAfter(cursor, items, stop).value ==> i < stop
  {
    if stop < |items| {
      CursorBelow(cursor, items, stop);
      if i >= stop {
        assert i > stop ==> SlotOf(items[stop]) <= SlotOf(items[i]);
      } else if items[i].slot < items[stop].slot {
        CursorReaches(cursor, items, stop, i);
      } else {
        assert SlotOf(items[i]) <= SlotOf(items[stop]);
      }
    } else if i < |items| - 1 {
      assert SlotOf(items[i]) <= SlotOf(items[|items| - 1]);
    }
  }

  /** On a linked run, a block ends the pass exactly if it is authentic, follows the run and cannot be
      recorded, and is read past exactly if it is not authentic, or neither follows the run nor lies
      within it. */
  lemma {:induction false} PassedOrFailing(l: Ledger, key: Option<Data>, recorded: Block -> bool, run: seq<Block>, b: Block)
    requires LinkedRun(l, key, run)
    ensures Fails(l, key, recorded, run, BlockMessage(b)) <==> Authentic(l, b, key) && Follows(run, b) && !recorded(b)
    ensures Skips(l, key, run, BlockMessage(b))
            <==> !Authentic(l, b, key) || (!Follows(run, b) && (run == [] || b.header.blockId >= GENESIS_BLOCK_ID + |run|))
  {
    ScreenedIff(l, b, key);
    LinkExact(l, key, run, b, b.header.hash);
  }

  /** Resolving an id of the verified run. */
  datatype PeerLookup = Cached(block: Block) | InsideRun | Behind

  /** The map holds every block of the run under its id, and otherwise at most the next id. */
  ghost predicate HoldsRun(blocks: map<nat, Block>, run: seq<Block>)
  {
    && (forall id :: GENESIS_BLOCK_ID <= id < GENESIS_BLOCK_ID + |run| ==>
          id in blocks && blocks[id] == run[id - GENESIS_BLOCK_ID])
    && (forall id :: id in blocks ==> GENESIS_BLOCK_ID <= id <= GENESIS_BLOCK_ID + |run|)
  }

  class PeerChain {
    var blocks: map<nat, Block>
    var verifiedPrefix: Option<PeerChainTip>

    ghost var contents: Cache

    /** The map holds the run and the stray block, nothing else. */
    ghost predicate Valid(l: Ledger, key: Option<Data>)
      reads this
    {
      && CacheInvariant(l, key, contents)
      && verifiedPrefix == RunTip(contents.run)
      && HoldsRun(blocks, contents.run)
      && var next := GENESIS_BLOCK_ID + |contents.run|;
         if next in blocks then contents.stray == Some(blocks[next]) else contents.stray.None?
    }

    constructor ()
      ensures contents == Cache([], None) && forall l, key :: Valid(l, key)
    {
      blocks, verifiedPrefix, contents := map[], None, Cache([], None);
    }

    function NextExpected(): nat
      reads this
    {
      if verifiedPrefix.Some? then verifiedPrefix.value.blockId + 1 else GENESIS_BLOCK_ID
    }

    /** Walks the verified tip up over cached blocks that link. */
    method ExtendPrefix(ghost l: Ledger, ghost key: Option<Data>)
      requires CacheInvariant(l, key, contents) && verifiedPrefix == RunTip(contents.run)
      requires HoldsRun(blocks, contents.run)
      requires var next := GENESIS_BLOCK_ID + |contents.run|;
               && next in blocks && Screened(l, blocks[next], key) && blocks[next].header.blockId == next
               && (!Follows(contents.run, blocks[next]) ==> contents.stray == Some(blocks[next]))
      modifies this`verifiedPrefix, this`contents
      ensures Valid(l, key)
      ensures var b := blocks[GENESIS_BLOCK_ID + |old(contents.run)|];
              contents == if Follows(old(contents.run), b) then Cache(old(contents.run) + [b], None) else old(contents)
    {
      ghost var run := contents.run;
      ghost var b := blocks[GENESIS_BLOCK_ID + |run|];
      NextIffFollows(l, key, run, b, b.header.hash);
      while NextExpected() in blocks
        invariant (contents == old(contents) && verifiedPrefix == RunTip(run))
                  || (Follows(run, b) && contents == Cache(run + [b], None) && verifiedPrefix == RunTip(run + [b]))
        decreases GENESIS_BLOCK_ID + |run| + 1 - NextExpected()
      {
        var next := blocks[NextExpected()];
        var link := LinkToTip(verifiedPrefix, next, next.header.hash);
        if !link.Next? {
          break;
        }
        verifiedPrefix := Some(PeerChainTip(next.header.blockId, link.hash));
        contents := Cache(run + [b], None);
      }
    }

    /** Caches a screened block if it is the next one needed, and says whether it was cached. */
    method Insert(ghost l: Ledger, ghost key: Option<Data>, b: Block) returns (cached: bool)
      requires Valid(l, key) && Screened(l, b, key)
      modifies this
      ensures Valid(l, key)
      ensures contents == CacheInsert(old(contents), b)
      ensures cached <==> contents != old(contents)
    {
      NextIffFollows(l, key, contents.run, b, b.header.hash);
      InsertKeepsInvariant(l, key, contents, b);
      hide CacheInvariant, LinkedRun, Follows, Screened;
      var link := LinkToTip(verifiedPrefix, b, b.header.hash);
      if link.AlreadySeen? || (link.OffTheChain? && !link.reason.DoesNotLink?) {
        return false;
      }
      if b.header.blockId in blocks {
        var held := blocks[b.header.blockId];
        if held.header.hash == b.header.hash || !link.Next? {
          return false;
        }
      }
      blocks := blocks[b.header.blockId := b];
      if !link.Next? {
        contents := Cache(contents.run, Some(b));
      }
      ExtendPrefix(l, key);
      cached := true;
    }

    function Resolve(ghost l: Ledger, ghost key: Option<Data>, id: nat): (r: PeerLookup)
      requires Valid(l, key)
      reads this
      ensures r == if contents.run == [] || id >= GENESIS_BLOCK_ID + |contents.run| then Behind
                   else if id < GENESIS_BLOCK_ID then InsideRun
                   else Cached(contents.run[id - GENESIS_BLOCK_ID])
    {
      if verifiedPrefix.None? || verifiedPrefix.value.blockId < id then Behind
      else if id in blocks then Cached(blocks[id])
      else InsideRun
    }
  }

  /** The cache after the history and the first `n` items. */
  function CachedAt(l: Ledger, key: Option<Data>, history: seq<Block>, items: seq<Item>, n: nat): Cache
    requires n <= |items|
  {
    CacheAll(l, key, history + BlocksIn(items[..n]))
  }

  /** One message that decodes: a screened block is cached, anything else is passed over. */
  method CacheMessage(chain: PeerChain, l: Ledger, key: Option<Data>, m: PeerMessage)
    requires chain.Valid(l, key) && !m.Undecodable?
    modifies chain
    ensures chain.Valid(l, key)
    ensures chain.contents == if m.BlockMessage? && Screened(l, m.block, key) then CacheInsert(old(chain.contents), m.block)
                              else old(chain.contents)
  {
    if m.BlockMessage? && Screened(l, m.block, key) {
      var cached := chain.Insert(l, key, m.block);
    }
  }

  /** One pass of the verifier's reader: it caches screened blocks up to the first inscription that
      does not decode. After any number of passes the cache is that of everything this reader was served,
      and, if none of it collides, its verified run is what the acceptance policy folds from that. */
  method CachePeerStream(
    chain: PeerChain, l: Ledger, key: Option<Data>, ghost history: seq<Block>, resumeCursor: Option<Slot>, items: seq<Item>)
    returns (cursor: Option<Slot>, stop: nat)
    requires chain.Valid(l, key) && chain.contents == CacheAll(l, key, history)
    modifies chain
    ensures chain.Valid(l, key)
    ensures stop <= |items| && (forall i :: 0 <= i < stop ==> !items[i].msg.Undecodable?)
    ensures stop < |items| ==> items[stop].msg.Undecodable?
    ensures chain.contents == CachedAt(l, key, history, items, stop)
    ensures CollisionFreeOn(l, history + BlocksIn(items[..stop])) ==> chain.contents.run == RunAt(l, key, history, items, stop)
    ensures cursor == CursorAfter(resumeCursor, items, stop)
  {
    NothingCached(l, key, history, items);
    hide CacheInsert, CachedAt, CacheInvariant, HoldsRun, RunTip, RunAt, CollisionFreeOn, BlocksIn;
    cursor, stop := resumeCursor, 0;
    var inProgress: Option<Slot> := None;
    while stop < |items|
      invariant stop <= |items| && chain.Valid(l, key)
      invariant forall i :: 0 <= i < stop ==> !items[i].msg.Undecodable?
      invariant chain.contents == CachedAt(l, key, history, items, stop)
      invariant inProgress == if stop == 0 then None else Some(items[stop - 1].slot)
      invariant cursor == if stop == 0 then resumeCursor else CursorAt(resumeCursor, items, stop - 1)
      decreases |items| - stop
    {
      if inProgress != Some(items[stop].slot) {
        cursor := if inProgress.Some? then inProgress else cursor;
        inProgress := Some(items[stop].slot);
      }
      if items[stop].msg.Undecodable? {
        AgreeIfNoCollision(l, key, history, items, stop);
        return cursor, stop;
      }
      CacheStep(l, key, history, items, stop);
      CacheMessage(chain, l, key, items[stop].msg);
      stop := stop + 1;
    }
    cursor := if inProgress.Some? then inProgress else cursor;
    AgreeIfNoCollision(l, key, history, items, stop);
  }

  lemma {:induction false} AgreeIfNoCollision(
    l: Ledger, key: Option<Data>, history: seq<Block>, items: seq<Item>, n: nat)
    requires n <= |items|
    ensures CollisionFreeOn(l, history + BlocksIn(items[..n])) ==>
              CachedAt(l, key, history, items, n).run == RunAt(l, key, history, items, n)
  {
    if CollisionFreeOn(l, history + BlocksIn(items[..n])) {
      VerifierAgreesWithWatcher(l, key, history + BlocksIn(items[..n]));
    }
  }

  lemma {:induction false} NothingCached(l: Ledger, key: Option<Data>, history: seq<Block>, items: seq<Item>)
    ensures CachedAt(l, key, history, items, 0) == CacheAll(l, key, history)
  {
    assert history + BlocksIn(items[..0]) == history;
  }

  lemma {:induction false} CacheStep(l: Ledger, key: Option<Data>, history: seq<Block>, items: seq<Item>, n: nat)
    requires n < |items|
    ensures var before := CachedAt(l, key, history, items, n);
            CachedAt(l, key, history, items, n + 1)
            == if items[n].msg.BlockMessage? && Screened(l, items[n].msg.block, key) then CacheInsert(before, items[n].msg.block)
               else before
  {
    assert items[..n + 1][..n] == items[..n];
    var read := history + BlocksIn(items[..n]);
    match items[n].msg
    case BlockMessage(b) =>
      assert history + BlocksIn(items[..n + 1]) == read + [b];
      assert (read + [b])[..|read|] == read;
    case _ =>
      assert BlocksIn(items[..n + 1]) == BlocksIn(items[..n]);
  }
}
