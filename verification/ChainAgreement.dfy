/** Two nodes that reach the same head tip agree on everything below it. */
module ChainAgreement {
  import opened Prelude
  import opened LedgerState
  import opened Transactions
  import opened Blocks
  import opened Applying
  import opened Chains
  import opened ChainEvents

  /** The whole history of a chain since its base. */
  function History(c: Chain): seq<Block>
  {
    c.finalized + BlocksOf(c.head)
  }

  lemma {:induction false} HistoryReplays(l: Ledger, c: Chain)
    requires WellFormed(l, c)
    ensures Replay(l, c.base, History(c)) == Some(HeadPoint(l, c))
  {
    ReplayConcat(l, c.base, c.finalized, BlocksOf(c.head));
  }

  lemma {:induction false} UserTxReadsHashedFields(l: Ledger, a: Block, b: Block, i: nat, s: State)
    requires Hashed(a) == Hashed(b) && i < |a.transactions|
    ensures ApplyUserTx(l, a, i, s) == ApplyUserTx(l, b, i, s)
  {
    hide ComputeStateDiff, ApplyDiff;
  }

  /** Running a block reads its hashed fields only. */
  lemma {:induction false} UserTxsReadHashedFields(l: Ledger, a: Block, b: Block, n: nat, s: State)
    requires Hashed(a) == Hashed(b) && n <= |a.transactions|
    ensures ApplyUserTxs(l, a, n, s) == ApplyUserTxs(l, b, n, s)
  {
    hide ApplyUserTx;
    if n > 0 {
      UserTxsReadHashedFields(l, a, b, n - 1, s);
      UserTxReadsHashedFields(l, a, b, n - 1, ApplyUserTxs(l, a, n - 1, s).state);
    }
  }

  lemma {:induction false} ExtendReadsHashedFields(l: Ledger, p: Point, a: Block, b: Block)
    requires Hashed(a) == Hashed(b)
    requires Extend(l, p, a).Some? && Extend(l, p, b).Some?
    ensures Extend(l, p, a) == Extend(l, p, b)
  {
    hide ApplyUserTx, ApplyUserTxs;
    if a.transactions != [] {
      var n := |a.transactions| - 1;
      UserTxsReadHashedFields(l, a, b, n, p.state);
      UserTxReadsHashedFields(l, a, b, n, ApplyUserTxs(l, a, n, p.state).state);
    }
  }

  /** Ids count up from the base, so the tip reached fixes the number of blocks. */
  lemma {:induction false} TipFixesLength(l: Ledger, p: Point, xs: seq<Block>, ys: seq<Block>)
    requires Replay(l, p, xs).Some? && Replay(l, p, ys).Some?
    requires Replay(l, p, xs).value.tip == Replay(l, p, ys).value.tip
    ensures |xs| == |ys|
  {
    ReplayLinks(l, p, xs);
    ReplayLinks(l, p, ys);
    ReplayTip(l, p, xs);
    ReplayTip(l, p, ys);
  }

  /** Two histories from one base that reach the same tip have the same contents, provided no two
      of their blocks collide. */
  lemma {:induction false} ContentsAgree(l: Ledger, p: Point, xs: seq<Block>, ys: seq<Block>)
    requires Replay(l, p, xs).Some? && Replay(l, p, ys).Some?
    requires Replay(l, p, xs).value.tip == Replay(l, p, ys).value.tip
    requires CollisionFreeOn(l, xs + ys)
    ensures HashedAll(xs) == HashedAll(ys)
    decreases |xs|
  {
    TipFixesLength(l, p, xs, ys);
    if xs != [] {
      var n := |xs| - 1;
      LastContentsEqual(l, p, xs, ys);
      PreviousTipsEqual(l, p, xs, ys);
      CollisionFreePrefixes(l, xs, ys, n);
      ContentsAgree(l, p, xs[..n], ys[..n]);
      HashedAllSnoc(xs);
      HashedAllSnoc(ys);
    }
  }

  /** Equal contents replay to equal ledger states. */
  lemma {:induction false} StatesAgree(l: Ledger, p: Point, xs: seq<Block>, ys: seq<Block>)
    requires Replay(l, p, xs).Some? && Replay(l, p, ys).Some?
    requires HashedAll(xs) == HashedAll(ys)
    ensures Replay(l, p, xs) == Replay(l, p, ys)
    decreases |xs|
  {
    assert |HashedAll(xs)| == |HashedAll(ys)|;
    if xs != [] {
      assert Hashed(xs[0]) == HashedAll(xs)[0] == Hashed(ys[0]);
      ExtendReadsHashedFields(l, p, xs[0], ys[0]);
      assert HashedAll(xs[1..]) == HashedAll(xs)[1..] && HashedAll(ys[1..]) == HashedAll(ys)[1..];
      StatesAgree(l, Extend(l, p, xs[0]).value, xs[1..], ys[1..]);
    }
  }

  /** Equal tips are hashes of equal contents. */
  lemma {:induction false} LastContentsEqual(l: Ledger, p: Point, xs: seq<Block>, ys: seq<Block>)
    requires |xs| == |ys| > 0
    requires Replay(l, p, xs).Some? && Replay(l, p, ys).Some?
    requires Replay(l, p, xs).value.tip == Replay(l, p, ys).value.tip
    requires CollisionFreeOn(l, xs + ys)
    ensures Hashed(xs[|xs| - 1]) == Hashed(ys[|ys| - 1])
  {
    ReplayLinks(l, p, xs);
    ReplayLinks(l, p, ys);
    ReplayTip(l, p, xs);
    ReplayTip(l, p, ys);
    var x, y := xs[|xs| - 1], ys[|ys| - 1];
    assert x in xs + ys && y in xs + ys;
  }

  /** The tip before the last block is the one that block names as its parent. */
  lemma {:induction false} ParentTip(l: Ledger, p: Point, bs: seq<Block>)
    requires bs != [] && Replay(l, p, bs).Some?
    ensures var n := |bs| - 1;
            var before := Replay(l, p, bs[..n]);
            && before.Some?
            && (before.value.tip.None? <==> n == 0 && p.tip.None?)
            && (before.value.tip.Some? ==>
                  && before.value.tip.value.blockId + 1 == bs[n].header.blockId
                  && before.value.tip.value.hash == bs[n].header.prevBlockHash)
  {
    var n := |bs| - 1;
    ReplayPrefix(l, p, bs, n);
    ReplayStep(l, p, bs, n, Replay(l, p, bs[..n]).value);
    ReplayTip(l, p, bs[..n]);
  }

  /** Equal last contents name the same parent. */
  lemma {:induction false} PreviousTipsEqual(l: Ledger, p: Point, xs: seq<Block>, ys: seq<Block>)
    requires |xs| == |ys| > 0
    requires Replay(l, p, xs).Some? && Replay(l, p, ys).Some?
    requires Hashed(xs[|xs| - 1]) == Hashed(ys[|ys| - 1])
    ensures var n := |xs| - 1;
            && Replay(l, p, xs[..n]).Some? && Replay(l, p, ys[..n]).Some?
            && Replay(l, p, xs[..n]).value.tip == Replay(l, p, ys[..n]).value.tip
  {
    hide Replay;
    ParentTip(l, p, xs);
    ParentTip(l, p, ys);
  }

  /** Agreement: two runs from the same starting point that end with the same head tip hold, in
      every hashed field, the same history, and the same head state, whatever each of them
      reorged, orphaned or finalized on the way. */
  lemma {:induction false} Agreement(l: Ledger, p: Point, es: seq<Event>, fs: seq<Event>)
    requires Run(l, FromFinal(p), es).Some? && Run(l, FromFinal(p), fs).Some?
    requires var c, d := Run(l, FromFinal(p), es).value.chain, Run(l, FromFinal(p), fs).value.chain;
             && HeadPoint(l, c).tip == HeadPoint(l, d).tip
             && CollisionFreeOn(l, History(c) + History(d))
    ensures var c, d := Run(l, FromFinal(p), es).value.chain, Run(l, FromFinal(p), fs).value.chain;
            && HashedAll(History(c)) == HashedAll(History(d))
            && HeadPoint(l, c) == HeadPoint(l, d)
  {
    var c, d := Run(l, FromFinal(p), es).value.chain, Run(l, FromFinal(p), fs).value.chain;
    FinalityIsAppendOnly(l, FromFinal(p), es, 0);
    FinalityIsAppendOnly(l, FromFinal(p), fs, 0);
    HistoryReplays(l, c);
    HistoryReplays(l, d);
    ContentsAgree(l, p, History(c), History(d));
    StatesAgree(l, p, History(c), History(d));
  }

  /** Two nodes never finalize conflicting blocks below a shared tip: with equal head tips, the
      shorter finalized history is a prefix of the longer one's contents. */
  lemma {:induction false} AgreedFinality(l: Ledger, p: Point, es: seq<Event>, fs: seq<Event>)
    requires Run(l, FromFinal(p), es).Some? && Run(l, FromFinal(p), fs).Some?
    requires var c, d := Run(l, FromFinal(p), es).value.chain, Run(l, FromFinal(p), fs).value.chain;
             && HeadPoint(l, c).tip == HeadPoint(l, d).tip
             && CollisionFreeOn(l, History(c) + History(d))
             && |c.finalized| <= |d.finalized|
    ensures var c, d := Run(l, FromFinal(p), es).value.chain, Run(l, FromFinal(p), fs).value.chain;
            HashedAll(c.finalized) <= HashedAll(d.finalized)
  {
    var c, d := Run(l, FromFinal(p), es).value.chain, Run(l, FromFinal(p), fs).value.chain;
    Agreement(l, p, es, fs);
    forall i | 0 <= i < |c.finalized|
      ensures Hashed(c.finalized[i]) == Hashed(d.finalized[i])
    {
      assert HashedAll(History(c))[i] == HashedAll(History(d))[i];
      assert History(c)[i] == c.finalized[i] && History(d)[i] == d.finalized[i];
    }
  }
}
