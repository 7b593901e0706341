/** What blocks do to the ledger, in terms of the diffs their transactions compute, and what they can
    never undo. */
module LedgerEffects {
  import opened Prelude
  import opened LedgerState
  import opened Ordering
  import opened Validation
  import opened Transactions
  import opened GuardedRuns
  import opened Blocks
  import opened Applying
  import opened Chains
  import opened ChainEvents

  // ---- the diffs of a block ----

  /** Transaction `i` of `b` is allowed in the block and computes diff `i` on the ledger the earlier
      diffs make of `s`. */
  ghost predicate ComputedAt(l: Ledger, b: Block, s: State, diffs: seq<StateDiff>, i: nat)
    requires i < |diffs| <= |b.transactions|
  {
    && (b.header.blockId == GENESIS_BLOCK_ID ==> b.transactions[i].Public?)
    && ComputeStateDiff(l.runtime, b.transactions[i], ApplyDiffs(s, diffs[..i]), b.header.blockId, b.header.timestamp)
       == Success(diffs[i])
  }

  /** These are the diffs of the first transactions of `b`, run in order on `s`. */
  ghost predicate Computes(l: Ledger, b: Block, s: State, diffs: seq<StateDiff>)
  {
    |diffs| <= |b.transactions| && forall i :: 0 <= i < |diffs| ==> ComputedAt(l, b, s, diffs, i)
  }

  /** Transaction `k` of `b` is refused on ledger `s` for this reason. */
  ghost predicate FailsAt(l: Ledger, b: Block, s: State, k: nat, err: BlockIngestError)
    requires k < |b.transactions|
  {
    if b.header.blockId == GENESIS_BLOCK_ID && !b.transactions[k].Public? then err == NonPublicGenesisTransaction
    else
      && err.StateTransition? && err.txIndex == k
      && ComputeStateDiff(l.runtime, b.transactions[k], s, b.header.blockId, b.header.timestamp) == Failure(err.reason)
  }

  lemma {:induction false} ComputesSnoc(l: Ledger, b: Block, s: State, diffs: seq<StateDiff>, d: StateDiff)
    requires Computes(l, b, s, diffs) && |diffs| < |b.transactions|
    requires b.header.blockId == GENESIS_BLOCK_ID ==> b.transactions[|diffs|].Public?
    requires ComputeStateDiff(l.runtime, b.transactions[|diffs|], ApplyDiffs(s, diffs), b.header.blockId, b.header.timestamp)
             == Success(d)
    ensures Computes(l, b, s, diffs + [d])
    ensures ApplyDiffs(s, diffs + [d]) == ApplyDiff(ApplyDiffs(s, diffs), d)
  {
    hide ComputeStateDiff, ApplyDiff;
    ApplyDiffsSnoc(s, diffs, d);
    var all := diffs + [d];
    hide ApplyDiffs;
    forall i | 0 <= i < |all|
      ensures ComputedAt(l, b, s, all, i)
    {
      if i < |diffs| {
        assert ComputedAt(l, b, s, diffs, i);
        assert all[..i] == diffs[..i];
      } else {
        assert all[..i] == diffs;
      }
    }
  }

  lemma {:induction false} ComputesPrefix(l: Ledger, b: Block, s: State, diffs: seq<StateDiff>, k: nat)
    requires Computes(l, b, s, diffs) && k <= |diffs|
    ensures Computes(l, b, s, diffs[..k])
  {
    hide ComputeStateDiff, ApplyDiffs;
    forall i | 0 <= i < k
      ensures ComputedAt(l, b, s, diffs[..k], i)
    {
      assert ComputedAt(l, b, s, diffs, i);
      assert diffs[..k][..i] == diffs[..i];
    }
  }

  /** The diffs are determined by the block and the ledger. */
  lemma {:induction false} ComputesUnique(l: Ledger, b: Block, s: State, ds: seq<StateDiff>, es: seq<StateDiff>)
    requires Computes(l, b, s, ds) && Computes(l, b, s, es) && |ds| <= |es|
    ensures ds <= es
    decreases |ds|
  {
    if ds != [] {
      var n := |ds| - 1;
      ComputesPrefix(l, b, s, ds, n);
      hide ComputeStateDiff, ApplyDiffs;
      ComputesUnique(l, b, s, ds[..n], es);
      assert ComputedAt(l, b, s, ds, n) && ComputedAt(l, b, s, es, n);
      assert ds[..n] == es[..n];
    }
  }

  lemma {:induction false} ComputedIsNotRefused(l: Ledger, b: Block, s: State, diffs: seq<StateDiff>, k: nat, err: BlockIngestError)
    requires Computes(l, b, s, diffs) && k < |diffs|
    ensures !FailsAt(l, b, ApplyDiffs(s, diffs[..k]), k, err)
  {
    hide ComputeStateDiff, ApplyDiffs;
    assert ComputedAt(l, b, s, diffs, k);
  }

  /** Where a transaction is refused the diffs end. */
  lemma {:induction false} ComputesStops(l: Ledger, b: Block, s: State, ds: seq<StateDiff>, es: seq<StateDiff>, err: BlockIngestError)
    requires Computes(l, b, s, ds) && Computes(l, b, s, es)
    requires |ds| < |b.transactions| && FailsAt(l, b, ApplyDiffs(s, ds), |ds|, err)
    ensures |es| <= |ds|
  {
    hide ComputeStateDiff, ApplyDiffs;
    if |es| > |ds| {
      ComputesUnique(l, b, s, ds, es);
      assert es[..|ds|] == ds;
      ComputedIsNotRefused(l, b, s, es, |ds|, err);
    }
  }

  lemma {:induction false} OneFailure(l: Ledger, b: Block, s: State, k: nat, err: BlockIngestError, err': BlockIngestError)
    requires k < |b.transactions| && FailsAt(l, b, s, k, err) && FailsAt(l, b, s, k, err')
    ensures err == err'
  {
    hide ComputeStateDiff;
  }

  lemma {:induction false} UserTxDiff(l: Ledger, b: Block, s: State, diffs: seq<StateDiff>) returns (more: seq<StateDiff>)
    requires Computes(l, b, s, diffs) && |diffs| < |b.transactions|
    ensures Computes(l, b, s, more)
    ensures var attempt := ApplyUserTx(l, b, |diffs|, ApplyDiffs(s, diffs));
            && attempt.state == ApplyDiffs(s, more)
            && |more| == |diffs| + (if attempt.error.None? then 1 else 0)
            && (attempt.error.Some? ==> more == diffs && FailsAt(l, b, ApplyDiffs(s, diffs), |diffs|, attempt.error.value))
  {
    hide ApplyDiffs, ApplyDiff, Computes;
    more := diffs;
    if !(b.header.blockId == GENESIS_BLOCK_ID && !b.transactions[|diffs|].Public?) {
      match ComputeStateDiff(l.runtime, b.transactions[|diffs|], ApplyDiffs(s, diffs), b.header.blockId, b.header.timestamp)
      case Failure(_) =>
      case Success(d) =>
        ComputesSnoc(l, b, s, diffs, d);
        more := diffs + [d];
    }
  }

  /** Running the first `n` transactions is applying their diffs up to the first refusal. */
  lemma {:induction false} UserTxsDiffs(l: Ledger, b: Block, n: nat, s: State) returns (diffs: seq<StateDiff>)
    requires n <= |b.transactions|
    ensures Computes(l, b, s, diffs) && |diffs| <= n
    ensures var attempt := ApplyUserTxs(l, b, n, s);
            && attempt.state == ApplyDiffs(s, diffs)
            && (attempt.error.None? <==> |diffs| == n)
            && (attempt.error.Some? ==> FailsAt(l, b, ApplyDiffs(s, diffs), |diffs|, attempt.error.value))
  {
    hide ApplyUserTx, FailsAt;
    if n == 0 {
      diffs := [];
    } else {
      diffs := UserTxsDiffs(l, b, n - 1, s);
      if |diffs| == n - 1 {
        hide Computes, ApplyDiffs;
        diffs := UserTxDiff(l, b, s, diffs);
      }
    }
  }

  // ---- when a block applies ----

  /** The block ends in the clock invocation for its own timestamp. */
  predicate WellClocked(l: Ledger, b: Block)
  {
    && b.transactions != []
    && b.transactions[|b.transactions| - 1] == Public(l.runtime.clockInvocation(b.header.timestamp))
  }

  /** At `p` the block is the next one, ends in its clock invocation, and every transaction of it computes. */
  ghost predicate Applies(l: Ledger, p: Point, b: Block)
  {
    Continues(l, p.tip, b) && WellClocked(l, b) && exists diffs :: Computes(l, b, p.state, diffs) && |diffs| == |b.transactions|
  }

  /** At `p` the block is refused for this reason. */
  ghost predicate Refused(l: Ledger, p: Point, b: Block, err: BlockIngestError)
  {
    var computed, expected := RecomputeHash(l, b), if p.tip.None? then GENESIS_BLOCK_ID else p.tip.value.blockId + 1;
    match err
    case HashMismatch(c, h) => c == computed && h == b.header.hash && c != h
    case UnexpectedBlockId(e, g) => b.header.hash == computed && e == expected && g == b.header.blockId && e != g
    case BrokenChainLink(e, g) =>
      && b.header.hash == computed && b.header.blockId == expected
      && p.tip.Some? && e == p.tip.value.hash && g == b.header.prevBlockHash && e != g
    case EmptyBlock => Continues(l, p.tip, b) && b.transactions == []
    case InvalidClockTransaction => Continues(l, p.tip, b) && b.transactions != [] && !WellClocked(l, b)
    case _ =>
      && Continues(l, p.tip, b) && WellClocked(l, b)
      && exists diffs :: Computes(l, b, p.state, diffs) && |diffs| < |b.transactions|
                         && FailsAt(l, b, ApplyDiffs(p.state, diffs), |diffs|, err)
  }

  lemma {:induction false} BlockDiffs(l: Ledger, p: Point, b: Block) returns (diffs: seq<StateDiff>)
    requires Continues(l, p.tip, b) && WellClocked(l, b)
    ensures Computes(l, b, p.state, diffs)
    ensures var attempt := ApplyBlock(l, p.tip, b, p.state);
            && attempt.state == ApplyDiffs(p.state, diffs)
            && (attempt.error.None? <==> |diffs| == |b.transactions|)
            && (attempt.error.Some? ==> |diffs| < |b.transactions| && FailsAt(l, b, ApplyDiffs(p.state, diffs), |diffs|, attempt.error.value))
  {
    hide ApplyUserTx, FailsAt, Computes, ApplyDiffs;
    diffs := UserTxsDiffs(l, b, |b.transactions|, p.state);
  }

  /** A block applies at a point exactly when it is the next one, well clocked and computes throughout,
      and then the new ledger is the old one with the diffs applied. */
  lemma {:induction false} ExtendIff(l: Ledger, p: Point, b: Block, q: Point)
    ensures Extend(l, p, b) == Some(q)
            <==> && Continues(l, p.tip, b) && WellClocked(l, b) && q.tip == Some(TipOf(b))
                 && exists diffs :: && Computes(l, b, p.state, diffs) && |diffs| == |b.transactions|
                                    && q.state == ApplyDiffs(p.state, diffs)
    ensures Extend(l, p, b).Some? <==> Applies(l, p, b)
  {
    if Continues(l, p.tip, b) && WellClocked(l, b) {
      var diffs := BlockDiffs(l, p, b);
      forall es | Computes(l, b, p.state, es) && |es| == |b.transactions|
        ensures es == diffs
      {
        if ApplyBlock(l, p.tip, b, p.state).error.Some? {
          ComputesStops(l, b, p.state, diffs, es, ApplyBlock(l, p.tip, b, p.state).error.value);
        } else {
          ComputesUnique(l, b, p.state, diffs, es);
        }
      }
      hide ApplyBlock, Computes, ApplyDiffs;
    } else {
      hide ApplyUserTxs;
    }
  }

  /** The reported error is the reason, and the only one, for which the block is refused. */
  lemma {:induction false} RefusedIff(l: Ledger, p: Point, b: Block, err: BlockIngestError)
    ensures ApplyBlock(l, p.tip, b, p.state).error == Some(err) <==> Refused(l, p, b, err)
    ensures Refused(l, p, b, err) ==> !Applies(l, p, b)
  {
    ExtendIff(l, p, b, p);
    if Continues(l, p.tip, b) && WellClocked(l, b) {
      var diffs := BlockDiffs(l, p, b);
      forall es, e | Computes(l, b, p.state, es) && |es| < |b.transactions| && FailsAt(l, b, ApplyDiffs(p.state, es), |es|, e)
        ensures ApplyBlock(l, p.tip, b, p.state).error == Some(e)
      {
        hide ApplyBlock, FailsAt;
        ComputesStops(l, b, p.state, es, diffs, e);
        ComputesUnique(l, b, p.state, diffs, es);
        var err' := ApplyBlock(l, p.tip, b, p.state).error.value;
        ComputesStops(l, b, p.state, diffs, es, err');
        assert diffs == es;
        OneFailure(l, b, ApplyDiffs(p.state, es), |es|, e, err');
      }
      hide ApplyBlock, Computes, ApplyDiffs;
    } else {
      hide ApplyUserTxs, Applies;
    }
  }

  // ---- what diffs write ----

  /** Some diff spends nullifier `n`. */
  ghost predicate SpentIn(diffs: seq<StateDiff>, n: Bytes32)
  {
    exists i :: 0 <= i < |diffs| && n in diffs[i].newNullifiers
  }

  predicate Mentions(d: StateDiff, id: AccountId)
  {
    id in d.publicDiff || id in d.signers || DeploysAt(d, id)
  }

  ghost predicate MentionedFrom(diffs: seq<StateDiff>, k: nat, id: AccountId)
  {
    exists i :: k <= i < |diffs| && Mentions(diffs[i], id)
  }

  /** Diff `k` is the last one to mention account `id`, and deploys a program there. */
  ghost predicate LastDeployedBy(diffs: seq<StateDiff>, k: nat, id: AccountId)
  {
    k < |diffs| && DeploysAt(diffs[k], id) && !MentionedFrom(diffs, k + 1, id)
  }

  function CommitmentsOf(d: StateDiff): seq<Bytes32>
  {
    d.newCommitments
  }

  /** `t` is `s` after the diffs: exactly their nullifiers are spent besides the old ones, their
      commitments follow the old ones in order, a program deployed last at an account is there with its
      bytecode, and an account none of them mentions is as it was. */
  ghost predicate Wrote(s: State, diffs: seq<StateDiff>, t: State)
  {
    && (forall n :: n in t.nullifiers <==> n in s.nullifiers || SpentIn(diffs, n))
    && t.commitmentBatches == s.commitmentBatches + Mapped(CommitmentsOf, diffs)
    && (forall k: nat, id :: LastDeployedBy(diffs, k, id) ==>
          GetAccount(t, id) == Account(PROGRAM_STORAGE_OWNER, 0, diffs[k].program.value.elf, 0))
    && (forall id :: !MentionedFrom(diffs, 0, id) ==>
          (id in t.publicState <==> id in s.publicState) && GetAccount(t, id) == GetAccount(s, id))
  }

  lemma {:induction false} SpentInSnoc(diffs: seq<StateDiff>, d: StateDiff, n: Bytes32)
    ensures SpentIn(diffs + [d], n) <==> SpentIn(diffs, n) || n in d.newNullifiers
  {
    var all := diffs + [d];
    if i :| 0 <= i < |all| && n in all[i].newNullifiers {
      assert i < |diffs| ==> n in diffs[i].newNullifiers;
    }
    if i :| 0 <= i < |diffs| && n in diffs[i].newNullifiers {
      assert n in all[i].newNullifiers;
    }
    assert all[|diffs|] == d;
  }

  lemma {:induction false} MentionedSnoc(diffs: seq<StateDiff>, d: StateDiff, k: nat, id: AccountId)
    requires k <= |diffs|
    ensures MentionedFrom(diffs + [d], k, id) <==> MentionedFrom(diffs, k, id) || Mentions(d, id)
  {
    hide Mentions;
    var all := diffs + [d];
    if i :| k <= i < |all| && Mentions(all[i], id) {
      assert i < |diffs| ==> Mentions(diffs[i], id);
    }
    if i :| k <= i < |diffs| && Mentions(diffs[i], id) {
      assert Mentions(all[i], id);
    }
    assert all[|diffs|] == d;
  }

  lemma {:induction false} WroteSnoc(s: State, diffs: seq<StateDiff>, t: State, d: StateDiff, u: State)
    requires Wrote(s, diffs, t) && Writes(t, d, u)
    ensures Wrote(s, diffs + [d], u)
  {
    var all := diffs + [d];
    forall n
      ensures n in u.nullifiers <==> n in s.nullifiers || SpentIn(all, n)
    {
      SpentInSnoc(diffs, d, n);
    }
    assert Mapped(CommitmentsOf, all) == Mapped(CommitmentsOf, diffs) + [d.newCommitments];
    hide SpentIn, MentionedFrom;
    forall k: nat, id | LastDeployedBy(all, k, id)
      ensures GetAccount(u, id) == Account(PROGRAM_STORAGE_OWNER, 0, all[k].program.value.elf, 0)
    {
      if k < |diffs| {
        MentionedSnoc(diffs, d, k + 1, id);
        assert LastDeployedBy(diffs, k, id);
        SignsIffListed(d.signers, id);
      }
    }
    forall id | !MentionedFrom(all, 0, id)
      ensures (id in u.publicState <==> id in s.publicState) && GetAccount(u, id) == GetAccount(s, id)
    {
      MentionedSnoc(diffs, d, 0, id);
      SignsIffListed(d.signers, id);
    }
  }

  /** Diffs applied in order have written exactly what they say. */
  lemma {:induction false} DiffsWrote(s: State, diffs: seq<StateDiff>)
    ensures Wrote(s, diffs, ApplyDiffs(s, diffs))
    decreases |diffs|
  {
    if diffs == [] {
      assert Mapped(CommitmentsOf, diffs) == [];
    } else {
      var init, d := diffs[..|diffs| - 1], diffs[|diffs| - 1];
      assert diffs == init + [d];
      hide Wrote, Writes, ApplyDiffs;
      DiffsWrote(s, init);
      ApplyDiffsSnoc(s, init, d);
      ApplyDiffWrites(ApplyDiffs(s, init), d);
      WroteSnoc(s, init, ApplyDiffs(s, init), d, ApplyDiffs(s, diffs));
    }
  }

  // ---- what blocks write ----

  /** Transaction `i` of `b` is a privacy-preserving one that verifies on the ledger the earlier diffs make
      of `s`, and spends `n`. */
  ghost predicate SpendsAt(l: Ledger, b: Block, s: State, diffs: seq<StateDiff>, i: nat, n: Bytes32)
    requires i < |diffs| <= |b.transactions|
  {
    && b.transactions[i].PrivacyPreserving?
    && Verifies(l.runtime.verifier, b.transactions[i].ptx, ApplyDiffs(s, diffs[..i]), b.header.blockId, b.header.timestamp)
    && n in Nullifiers(b.transactions[i].ptx.message.privateActions)
  }

  lemma {:induction false} SpentByVerified(l: Ledger, b: Block, s: State, diffs: seq<StateDiff>, i: nat, n: Bytes32)
    requires Computes(l, b, s, diffs) && i < |diffs|
    ensures n in diffs[i].newNullifiers <==> SpendsAt(l, b, s, diffs, i, n)
  {
    assert ComputedAt(l, b, s, diffs, i);
    ComputedDiffIff(l.runtime, b.transactions[i], ApplyDiffs(s, diffs[..i]), b.header.blockId, b.header.timestamp, diffs[i]);
  }

  /** What an applied block writes: its diffs, so that a nullifier is spent afterwards exactly if it was
      before or a privacy-preserving transaction of the block was verified to spend it. */
  lemma {:induction false} BlockWrote(l: Ledger, p: Point, b: Block, q: Point) returns (diffs: seq<StateDiff>)
    requires Extend(l, p, b) == Some(q)
    ensures Computes(l, b, p.state, diffs) && |diffs| == |b.transactions| && Wrote(p.state, diffs, q.state)
    ensures forall n :: n in q.state.nullifiers
                        <==> n in p.state.nullifiers || exists i :: 0 <= i < |diffs| && SpendsAt(l, b, p.state, diffs, i, n)
  {
    ExtendIff(l, p, b, q);
    hide Extend, Computes, SpendsAt;
    diffs :| Computes(l, b, p.state, diffs) && |diffs| == |b.transactions| && q.state == ApplyDiffs(p.state, diffs);
    DiffsWrote(p.state, diffs);
    forall n
      ensures SpentIn(diffs, n) <==> exists i :: 0 <= i < |diffs| && SpendsAt(l, b, p.state, diffs, i, n)
    {
      forall i | 0 <= i < |diffs|
        ensures n in diffs[i].newNullifiers <==> SpendsAt(l, b, p.state, diffs, i, n)
      {
        SpentByVerified(l, b, p.state, diffs, i, n);
      }
    }
  }

  /** Block `k` of a replay spends `n`. */
  ghost predicate SpentByBlock(l: Ledger, p: Point, bs: seq<Block>, k: nat, n: Bytes32)
  {
    && k < |bs| && Replay(l, p, bs[..k]).Some?
    && exists diffs :: && Computes(l, bs[k], Replay(l, p, bs[..k]).value.state, diffs) && |diffs| == |bs[k].transactions|
                       && SpentIn(diffs, n)
  }

  lemma {:induction false} SpentBySnoc(l: Ledger, p: Point, bs: seq<Block>, b: Block, k: nat, n: Bytes32)
    requires k < |bs|
    ensures SpentByBlock(l, p, bs + [b], k, n) <==> SpentByBlock(l, p, bs, k, n)
  {
    hide Replay, Computes, SpentIn;
    assert (bs + [b])[..k] == bs[..k];
  }

  lemma {:induction false} LastBlockSpends(l: Ledger, p: Point, bs: seq<Block>, b: Block, q: Point, r: Point, n: Bytes32)
    requires Replay(l, p, bs) == Some(q) && Extend(l, q, b) == Some(r)
    ensures n in r.state.nullifiers <==> n in q.state.nullifiers || SpentByBlock(l, p, bs + [b], |bs|, n)
    ensures q.state.commitmentBatches <= r.state.commitmentBatches
    ensures |r.state.commitmentBatches| == |q.state.commitmentBatches| + |b.transactions|
  {
    var diffs := BlockWrote(l, q, b, r);
    hide Replay, Extend, SpentIn;
    assert (bs + [b])[..|bs|] == bs;
    if SpentByBlock(l, p, bs + [b], |bs|, n) {
      var es :| Computes(l, b, q.state, es) && |es| == |b.transactions| && SpentIn(es, n);
      ComputesUnique(l, b, q.state, diffs, es);
    }
  }

  /** What a replay writes: a nullifier is spent afterwards exactly if it was before or one of the blocks
      spends it, and commitments only get successors. */
  lemma {:induction false} ReplayWrote(l: Ledger, p: Point, bs: seq<Block>, q: Point)
    requires Replay(l, p, bs) == Some(q)
    ensures forall n :: n in q.state.nullifiers <==> n in p.state.nullifiers || exists k: nat :: SpentByBlock(l, p, bs, k, n)
    ensures p.state.commitmentBatches <= q.state.commitmentBatches
    decreases |bs|
  {
    hide Extend, SpentByBlock;
    if bs == [] {
      forall k: nat, n
        ensures !SpentByBlock(l, p, bs, k, n)
      {
        NothingSpent(l, p, k, n);
      }
    } else {
      var init, b := bs[..|bs| - 1], bs[|bs| - 1];
      assert bs == init + [b];
      ReplayPrefix(l, p, bs, |init|);
      ReplaySnoc(l, p, init, b);
      var before := Replay(l, p, init).value;
      hide Replay;
      ReplayWrote(l, p, init, before);
      forall n
        ensures n in q.state.nullifiers <==> n in p.state.nullifiers || exists k: nat :: SpentByBlock(l, p, bs, k, n)
      {
        LastBlockSpends(l, p, init, b, before, q, n);
        SpendersSnoc(l, p, init, b, n);
      }
      LastBlockSpends(l, p, init, b, before, q, 0);
    }
  }

  lemma {:induction false} NothingSpent(l: Ledger, p: Point, k: nat, n: Bytes32)
    ensures !SpentByBlock(l, p, [], k, n)
  {
  }

  lemma {:induction false} SpendersSnoc(l: Ledger, p: Point, bs: seq<Block>, b: Block, n: Bytes32)
    ensures (exists k: nat :: SpentByBlock(l, p, bs + [b], k, n))
            <==> (exists k: nat :: SpentByBlock(l, p, bs, k, n)) || SpentByBlock(l, p, bs + [b], |bs|, n)
  {
    if k: nat :| SpentByBlock(l, p, bs + [b], k, n) {
      if k < |bs| {
        SpentBySnoc(l, p, bs, b, k, n);
      }
    }
    if k: nat :| SpentByBlock(l, p, bs, k, n) {
      SpentBySnoc(l, p, bs, b, k, n);
    }
  }

  // ---- over runs ----

  /** What the final ledger has spent or committed to is never undone: over every run its spent
      nullifiers only grow and its commitments only get successors, and the head ledger has all of them. */
  lemma {:induction false} FinalLedgerOnlyGrows(l: Ledger, c: Chain, es: seq<Event>, k: nat)
    requires WellFormed(l, c) && k <= |es| && Run(l, c, es).Some?
    ensures Run(l, c, es[..k]).Some?
    ensures var before, after := Run(l, c, es[..k]).value.chain, Run(l, c, es).value.chain;
            && FinalPoint(l, before).state.nullifiers <= FinalPoint(l, after).state.nullifiers
            && FinalPoint(l, before).state.commitmentBatches <= FinalPoint(l, after).state.commitmentBatches
            && FinalPoint(l, after).state.nullifiers <= HeadPoint(l, after).state.nullifiers
            && FinalPoint(l, after).state.commitmentBatches <= HeadPoint(l, after).state.commitmentBatches
  {
    FinalityIsAppendOnly(l, c, es, k);
    FinalityIsAppendOnly(l, c, es[..k], 0);
    var before, after := Run(l, c, es[..k]).value.chain, Run(l, c, es).value.chain;
    var was, now := before.finalized, after.finalized;
    var more := now[|was|..];
    assert now == was + more;
    hide Run;
    ReplayConcat(l, c.base, was, more);
    hide Replay;
    ReplayWrote(l, FinalPoint(l, before), more, FinalPoint(l, after));
    ReplayWrote(l, FinalPoint(l, after), BlocksOf(after.head), HeadPoint(l, after));
  }
}
