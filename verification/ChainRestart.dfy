/** Restarting a node from its persisted final tier and held blocks. */
module ChainRestart {
  import opened Prelude
  import opened LedgerState
  import opened CircuitOutputs
  import opened Validation
  import opened Transactions
  import opened Blocks
  import opened Applying
  import opened Chains
  import opened ChainEvents
  import opened ChainViews

  function RestoreAll(l: Ledger, c: Chain, bs: seq<Block>): (r: Option<Chain>)
    requires WellFormed(l, c)
    ensures r.Some? ==> WellFormed(l, r.value)
    decreases |bs|
  {
    if bs == [] then Some(c)
    else
      match RestoreAll(l, c, bs[..|bs| - 1])
      case None => None
      case Some(before) =>
        match Restore(l, before, bs[|bs| - 1])
        case None => None
        case Some(after) =>
          RestoreWellFormed(l, before, bs[|bs| - 1]);
          Some(after)
  }

  lemma {:induction false} FromFinalIsEmpty(l: Ledger, p: Point)
    ensures WellFormed(l, FromFinal(p)) && FinalPoint(l, FromFinal(p)) == p && HeadPoint(l, FromFinal(p)) == p
  {
    hide Extend;
  }

  /** Rebuilding the head from the first `k` held blocks on the stored final tier. */
  lemma {:induction false} RestoreRebuildsHead(l: Ledger, c: Chain, k: nat)
    requires WellFormed(l, c) && k <= |c.head|
    ensures var d := RestoreAll(l, FromFinal(FinalPoint(l, c)), BlocksOf(c.head)[..k]);
            && d.Some?
            && FinalPoint(l, d.value) == FinalPoint(l, c)
            && BlocksOf(d.value.head) == BlocksOf(c.head)[..k]
            && (forall e :: e in d.value.head ==> e.msg == e.block.header.hash)
  {
    hide Replay, Extend;
    FromFinalIsEmpty(l, FinalPoint(l, c));
    if k > 0 {
      RestoreRebuildsHead(l, c, k - 1);
      var bs := BlocksOf(c.head);
      var before := RestoreAll(l, FromFinal(FinalPoint(l, c)), bs[..k - 1]).value;
      assert bs[..k][..k - 1] == bs[..k - 1];
      ReplayPrefix(l, FinalPoint(l, c), bs, k - 1);
      ReplayStep(l, FinalPoint(l, c), bs, k - 1, HeadPoint(l, before));
      RestoreWellFormed(l, before, bs[k - 1]);
      BlocksOfSnoc(before.head, HeadEntry(bs[k - 1].header.hash, bs[k - 1]));
      assert bs[..k] == bs[..k - 1] + [bs[k - 1]];
    }
  }

  // ---- restart ----

  /** The node rebuilt from the stored final tier and the held blocks. */
  ghost function Restarted(l: Ledger, c: Chain): (d: Chain)
    requires WellFormed(l, c)
    ensures SameView(l, c, d) && HeadPoint(l, d) == HeadPoint(l, c)
    ensures RestoreAll(l, FromFinal(FinalPoint(l, c)), BlocksOf(c.head)) == Some(d)
    ensures forall e :: e in d.head ==> e.msg == e.block.header.hash
  {
    assert BlocksOf(c.head)[..|c.head|] == BlocksOf(c.head);
    RestoreRebuildsHead(l, c, |c.head|);
    RestoreAll(l, FromFinal(FinalPoint(l, c)), BlocksOf(c.head)).value
  }

  /** Every held entry at the height of `m` with another hash is named by `m` exactly if its hash,
      read as a message id, is. */
  ghost predicate HashNamesAlike(head: seq<HeadEntry>, m: Message)
  {
    forall e :: e in head && e.block.header.blockId == m.block.header.blockId && e.block.header.hash != m.block.header.hash
                ==> (e.msg == m.msg <==> e.block.header.hash == m.msg)
  }

  lemma {:induction false} RestartedNamesAlike(l: Ledger, c: Chain, m: Message)
    requires WellFormed(l, c)
    ensures NamedAlike(c.head, Restarted(l, c).head, m) <==> HashNamesAlike(c.head, m)
  {
    var d := Restarted(l, c);
    SameViewEntries(l, c, d);
    forall i | 0 <= i < |c.head|
      ensures c.head[i] in c.head && d.head[i].msg == c.head[i].block.header.hash
    {
      assert d.head[i] in d.head;
    }
  }

  /** Exactly which message shows that a node was restarted: the running node and the restarted one
      adopt, revert and finalize alike unless, at the message's height, a block with another hash is
      held under its message id or hashes to it. */
  lemma {:induction false} RestartShowsIff(l: Ledger, c: Chain, m: Message, slot: Slot)
    requires WellFormed(l, c)
    ensures Adopt(l, c, m.msg, m.block).outcome == Adopt(l, Restarted(l, c), m.msg, m.block).outcome <==> HashNamesAlike(c.head, m)
    ensures SameView(l, RevertOrphan(c, m.msg, m.block), RevertOrphan(Restarted(l, c), m.msg, m.block)) <==> HashNamesAlike(c.head, m)
    ensures var x, y := FinalizeBlock(l, c, m.msg, m.block, slot), FinalizeBlock(l, Restarted(l, c), m.msg, m.block, slot);
            x.outcome == y.outcome && SameView(l, x.chain, y.chain) <==> HashNamesAlike(c.head, m)
  {
    hide NamedAlike, HashNamesAlike, Adopt, RevertOrphan, FinalizeBlock;
    var d := Restarted(l, c);
    RestartedNamesAlike(l, c, m);
    AdoptAlikeIff(l, c, d, m);
    OrphanAlikeIff(l, c, d, m);
    FinalizeAlikeIff(l, c, d, m, slot);
  }

  // ---- a condition on the messages alone ----

  /** At every height each message id carries one block hash. */
  type Carried = (nat, MsgId) -> Hash

  ghost predicate CarriedBlock(carried: Carried, msg: MsgId, b: Block)
  {
    carried(b.header.blockId, msg) == b.header.hash
  }

  ghost predicate CarriedHead(carried: Carried, head: seq<HeadEntry>)
  {
    forall e :: e in head ==> CarriedBlock(carried, e.msg, e.block)
  }

  ghost predicate CarriedMessages(carried: Carried, ms: seq<Message>)
  {
    forall m :: m in ms ==> CarriedBlock(carried, m.msg, m.block)
  }

  /** Restored blocks are named by their own hash. */
  ghost predicate CarriedEvent(carried: Carried, e: Event)
  {
    match e
    case UpdateEvent(orphaned, adopted) => CarriedMessages(carried, orphaned) && CarriedMessages(carried, adopted)
    case RestoredEvent(b) => CarriedBlock(carried, b.header.hash, b)
    case AdoptedEvent(msg, b) => CarriedBlock(carried, msg, b)
    case ProducedEvent(msg, b) => CarriedBlock(carried, msg, b)
    case OrphanedEvent(msg, b) => CarriedBlock(carried, msg, b)
    case FinalizedEvent(msg, b, _) => CarriedBlock(carried, msg, b)
  }

  lemma {:induction false} CarriedNamesAlike(carried: Carried, h: seq<HeadEntry>, k: seq<HeadEntry>, m: Message)
    requires CarriedHead(carried, h) && CarriedHead(carried, k) && CarriedBlock(carried, m.msg, m.block)
    requires |h| == |k| && forall i :: 0 <= i < |h| ==> h[i].block == k[i].block
    ensures NamedAlike(h, k, m)
  {
    forall i | 0 <= i < |h|
      ensures CarriedBlock(carried, h[i].msg, h[i].block) && CarriedBlock(carried, k[i].msg, k[i].block)
    {
      assert h[i] in h && k[i] in k;
    }
  }

  lemma {:induction false} CarriedEarliest(l: Ledger, carried: Carried, c: Chain, d: Chain, ms: seq<Message>)
    requires SameView(l, c, d) && CarriedHead(carried, c.head) && CarriedHead(carried, d.head) && CarriedMessages(carried, ms)
    ensures EarliestOrphan(c.head, ms) == EarliestOrphan(d.head, ms)
    decreases |ms|
  {
    if ms != [] {
      hide CarriedHead, NamedAlike, HeadPosition, SameView;
      SameViewEntries(l, c, d);
      CarriedNamesAlike(carried, c.head, d.head, ms[0]);
      LookupsAgreeIff(l, c, d, ms[0]);
      CarriedEarliest(l, carried, c, d, ms[1..]);
    }
  }

  lemma {:induction false} CarriedPrefix(carried: Carried, head: seq<HeadEntry>, more: seq<HeadEntry>)
    requires CarriedHead(carried, head) && more <= head
    ensures CarriedHead(carried, more)
  {
    forall e | e in more
      ensures e in head
    {
    }
  }

  lemma {:induction false} AdoptCarries(l: Ledger, carried: Carried, c: Chain, m: Message)
    requires WellFormed(l, c) && CarriedHead(carried, c.head) && CarriedBlock(carried, m.msg, m.block)
    ensures CarriedHead(carried, Adopt(l, c, m.msg, m.block).chain.head)
  {
    BelowReplays(l, c, m.block.header.blockId);
    CarriedPrefix(carried, c.head, Below(c.head, m.block.header.blockId));
    hide Replay, ApplyBlock, Below;
  }

  lemma {:induction false} AdoptAllCarries(l: Ledger, carried: Carried, c: Chain, ms: seq<Message>)
    requires WellFormed(l, c) && CarriedHead(carried, c.head) && CarriedMessages(carried, ms)
    ensures CarriedHead(carried, AdoptAll(l, c, ms).chain.head)
    decreases |ms|
  {
    if ms != [] {
      var last := |ms| - 1;
      AdoptAllCarries(l, carried, c, ms[..last]);
      AdoptCarries(l, carried, AdoptAll(l, c, ms[..last]).chain, ms[last]);
    }
  }

  /** Every entry of the new head is an old one or comes with the event. */
  lemma {:induction false} StepCarries(l: Ledger, carried: Carried, c: Chain, e: Event)
    requires WellFormed(l, c) && CarriedHead(carried, c.head) && CarriedEvent(carried, e) && Step(l, c, e).Some?
    ensures CarriedHead(carried, Step(l, c, e).value.chain.head)
  {
    match e
    case AdoptedEvent(msg, b) => AdoptCarries(l, carried, c, Message(msg, b));
    case ProducedEvent(msg, b) => AdoptCarries(l, carried, c, Message(msg, b));
    case OrphanedEvent(msg, b) =>
    case UpdateEvent(orphaned, adopted) =>
      RevertAllWellFormed(l, c, orphaned);
      AdoptAllCarries(l, carried, RevertAll(c, orphaned), adopted);
    case FinalizedEvent(msg, b, slot) => FinalizeCarries(l, carried, c, Message(msg, b), slot);
    case RestoredEvent(b) =>
  }

  lemma {:induction false} FinalizeCarries(l: Ledger, carried: Carried, c: Chain, m: Message, slot: Slot)
    requires WellFormed(l, c) && CarriedHead(carried, c.head)
    ensures CarriedHead(carried, FinalizeBlock(l, c, m.msg, m.block, slot).chain.head)
  {
    hide Replay, ApplyBlock;
    var parent := PositionByHash(c.head, m.block.header.prevBlockHash);
    if PositionOf(c.head, m).None? && parent.Some? {
      FinalizePrefixKeepsHead(l, c, parent.value + 1);
    }
  }

  lemma {:induction false} CarriedAdoptions(l: Ledger, carried: Carried, c: Chain, d: Chain, ms: seq<Message>)
    requires SameView(l, c, d) && CarriedHead(carried, c.head) && CarriedHead(carried, d.head) && CarriedMessages(carried, ms)
    ensures AdoptionsAlike(l, c, d, ms)
    decreases |ms|
  {
    if ms != [] {
      var last := |ms| - 1;
      CarriedAdoptions(l, carried, c, d, ms[..last]);
      AdoptAllAlikeIff(l, c, d, ms[..last]);
      AdoptAllCarries(l, carried, c, ms[..last]);
      AdoptAllCarries(l, carried, d, ms[..last]);
      hide CarriedHead, SameView;
      var x, y := AdoptAll(l, c, ms[..last]).chain, AdoptAll(l, d, ms[..last]).chain;
      SameViewEntries(l, x, y);
      CarriedNamesAlike(carried, x.head, y.head, ms[last]);
    }
  }

  lemma {:induction false} CarriedEventAlike(l: Ledger, carried: Carried, c: Chain, d: Chain, e: Event)
    requires SameView(l, c, d) && CarriedHead(carried, c.head) && CarriedHead(carried, d.head) && CarriedEvent(carried, e)
    ensures EventAlike(l, c, d, e)
  {
    SameViewEntries(l, c, d);
    hide NamedAlike, AdoptionsAlike, EarliestOrphan;
    match e
    case AdoptedEvent(msg, b) => CarriedNamesAlike(carried, c.head, d.head, Message(msg, b));
    case OrphanedEvent(msg, b) => CarriedNamesAlike(carried, c.head, d.head, Message(msg, b));
    case FinalizedEvent(msg, b, _) => CarriedNamesAlike(carried, c.head, d.head, Message(msg, b));
    case ProducedEvent(_, _) =>
    case RestoredEvent(_) =>
    case UpdateEvent(orphaned, adopted) =>
      CarriedEarliest(l, carried, c, d, orphaned);
      RevertAllAlikeIff(l, c, d, orphaned);
      CarriedReverted(carried, c, orphaned);
      CarriedReverted(carried, d, orphaned);
      CarriedAdoptions(l, carried, RevertAll(c, orphaned), RevertAll(d, orphaned), adopted);
  }

  lemma {:induction false} CarriedReverted(carried: Carried, c: Chain, ms: seq<Message>)
    requires CarriedHead(carried, c.head)
    ensures CarriedHead(carried, RevertAll(c, ms).head)
  {
  }

  lemma {:induction false} CarriedRunAlike(l: Ledger, carried: Carried, c: Chain, d: Chain, es: seq<Event>)
    requires SameView(l, c, d) && CarriedHead(carried, c.head) && CarriedHead(carried, d.head)
    requires forall i :: 0 <= i < |es| ==> CarriedEvent(carried, es[i])
    ensures EventsAlike(l, c, d, es)
    ensures Run(l, c, es).Some? ==> CarriedHead(carried, Run(l, c, es).value.chain.head)
    ensures Run(l, d, es).Some? ==> CarriedHead(carried, Run(l, d, es).value.chain.head)
    decreases |es|
  {
    assert WellFormed(l, c) && WellFormed(l, d);
    hide Replay, Step, EventAlike, CarriedEvent, CarriedHead, SameView, RunsAlike;
    if es != [] {
      var init, last := es[..|es| - 1], es[|es| - 1];
      CarriedRunAlike(l, carried, c, d, init);
      RunsAlikeIff(l, c, d, init);
      SameAtTheEnd(l, c, d, init);
      var x, y := Run(l, c, init), Run(l, d, init);
      if x.Some? {
        CarriedEventAlike(l, carried, x.value.chain, y.value.chain, last);
        if Step(l, x.value.chain, last).Some? {
          StepCarries(l, carried, x.value.chain, last);
        }
        if Step(l, y.value.chain, last).Some? {
          StepCarries(l, carried, y.value.chain, last);
        }
      }
    }
  }

  lemma {:induction false} SameAtTheEnd(l: Ledger, c: Chain, d: Chain, es: seq<Event>)
    requires WellFormed(l, c) && WellFormed(l, d) && RunsAlike(l, c, d, es)
    ensures SameSoFar(l, c, d, es)
  {
    assert es[..|es|] == es;
  }

  /** Restart transparency: the node rebuilt from the stored final tier and held blocks shows the
      same tiers, and every later sequence of events gives the same outcomes and the same tiers at
      every point, provided that at each height a message id, real or hash-derived, carries one hash. */
  lemma {:induction false} RestartIsTransparent(l: Ledger, carried: Carried, c: Chain, es: seq<Event>)
    requires WellFormed(l, c) && CarriedHead(carried, c.head)
    requires forall i :: 0 <= i < |es| ==> CarriedEvent(carried, es[i])
    requires forall e :: e in c.head ==> CarriedBlock(carried, e.block.header.hash, e.block)
    ensures SameView(l, c, Restarted(l, c)) && HeadPoint(l, c) == HeadPoint(l, Restarted(l, c))
    ensures RunsAlike(l, c, Restarted(l, c), es)
  {
    var d := Restarted(l, c);
    SameViewEntries(l, c, d);
    forall e | e in d.head
      ensures CarriedBlock(carried, e.msg, e.block)
    {
      var i :| 0 <= i < |d.head| && d.head[i] == e;
      assert c.head[i] in c.head;
    }
    CarriedRunAlike(l, carried, c, d, es);
    RunsAlikeIff(l, c, d, es);
  }

  /** A ledger on which every self-hashed, linked block applies. */
  function PermissiveLedger(): Ledger
  {
    Ledger(
      Runtime(
        (tx: PublicTransaction, s: State, b: nat, ts: nat) => Success(Validation.Effect(map[], [], [])),
        Verifier((key: PublicKey) => 0, (tx: PrivateTransaction) => false, (proof: Data, out: CircuitOutput) => false,
                 (batches: seq<seq<Bytes32>>, root: Bytes32) => false),
        (d: Data) => Result.Failure(Rejected(0)),
        (ts: nat) => PublicTransaction([], []),
        [1, 2, 3], 7, 9),
      (h: HashableBlockData) => 10 * h.blockId + h.timestamp,
      (sig: Data, h: Hash, key: Data) => true)
  }

  function ToyBlock(id: nat, prev: Hash, timestamp: nat): Block
  {
    Block(BlockHeader(id, prev, 10 * id + timestamp, timestamp, []), [Public(PublicTransaction([], []))], Pending)
  }

  lemma {:induction false} ToyBlockApplies(p: Point, b: Block, timestamp: nat, prev: Hash)
    requires b == ToyBlock(NextId(p.tip), prev, timestamp)
    requires p.tip.Some? ==> prev == p.tip.value.hash
    ensures Extend(PermissiveLedger(), p, b).Some?
  {
  }

  /** The proviso matters: if one message id is used for two blocks at one height, the running
      node takes the second for a re-delivery while the restarted node reorgs onto it. */
  lemma {:induction false} ReusedMessageIdShowsRestart(s: State)
    ensures var l := PermissiveLedger();
            var a, b := ToyBlock(1, 0, 0), ToyBlock(1, 0, 1);
            var c := Chain(Point(s, None), [], [HeadEntry(5, a)], None);
            && WellFormed(l, c)
            && Adopt(l, c, 5, b).outcome == AlreadyApplied
            && var d := RestoreAll(l, FromFinal(FinalPoint(l, c)), BlocksOf(c.head));
               d.Some? && Adopt(l, d.value, 5, b).outcome == Applied
  {
    var l := PermissiveLedger();
    var a, b := ToyBlock(1, 0, 0), ToyBlock(1, 0, 1);
    var p := Point(s, None);
    var c := Chain(p, [], [HeadEntry(5, a)], None);
    ToyBlockApplies(p, a, 0, 0);
    ToyBlockApplies(p, b, 1, 0);
    assert BlocksOf(c.head) == [a] && [a][1..] == [];
    assert Replay(l, p, [a]) == Extend(l, p, a);
    assert HeadPosition(c.head, 5, b) == Some(0);
    RestoreRebuildsHead(l, c, 1);
    assert [a][..1] == [a] && [a][..0] == [];
    var d := RestoreAll(l, FromFinal(p), [a]).value;
    assert d.head == [HeadEntry(10, a)];
    assert d.head[1..] == [] && Below(d.head, 1) == [];
    assert BlocksOf(Below(d.head, 1)) == [];
  }

  /** A re-delivery reported as already applied can still move the boundary between the tiers. */
  lemma {:induction false} AlreadyAppliedCanFinalize(s: State)
    ensures var l := PermissiveLedger();
            var a, b := ToyBlock(1, 0, 0), ToyBlock(2, 10, 0);
            var c := Chain(Point(s, None), [], [HeadEntry(1, a), HeadEntry(2, b)], None);
            var stale := ToyBlock(1, 20, 3);
            && WellFormed(l, c)
            && FinalizeBlock(l, c, 3, stale, 0).outcome == AlreadyApplied
            && FinalizeBlock(l, c, 3, stale, 0).chain.finalized == [a, b]
  {
    var l := PermissiveLedger();
    var a, b := ToyBlock(1, 0, 0), ToyBlock(2, 10, 0);
    var p := Point(s, None);
    var c := Chain(p, [], [HeadEntry(1, a), HeadEntry(2, b)], None);
    ToyBlockApplies(p, a, 0, 0);
    var q := Extend(l, p, a).value;
    ToyBlockApplies(q, b, 0, 10);
    hide ApplyBlock;
    assert BlocksOf(c.head) == [a] + [b] && [a][1..] == [];
    assert Replay(l, p, [a]) == Some(q);
    ReplaySnoc(l, p, [a], b);
    var stale := ToyBlock(1, 20, 3);
    assert HeadPosition(c.head, 3, stale).None?;
    assert PositionByHash(c.head, 20) == Some(1);
    assert c.head[..2] == c.head;
    FinalizePrefixKeepsHead(l, c, 2);
    assert FinalizePrefix(c, 2).finalized == [a, b];
    ReplayTip(l, p, [a, b]);
  }
}
