/** What the ledger keeps of privacy-preserving transactions over whole histories: nothing is spent,
    committed to or applied twice, and every one of them settles what its circuit run derived. */
module Spending {
  import opened Prelude
  import opened LedgerState
  import opened Programs
  import opened Execution
  import opened CallTrees
  import opened Threading
  import opened Provenance
  import opened Derivation
  import opened Ordering
  import opened CircuitOutputs
  import opened CircuitSoundness
  import opened Ownership
  import opened Validation
  import opened Transactions
  import opened GuardedRuns
  import opened Blocks
  import opened Applying
  import opened Chains
  import opened ChainEvents
  import opened ChainAgreement
  import opened LedgerEffects

  // ---- once ----

  /** The diff repeats no nullifier or commitment, spends none that is spent and adds none that is there. */
  ghost predicate Fresh(s: State, d: StateDiff)
  {
    && Distinct(d.newNullifiers) && (forall n :: n in d.newNullifiers ==> n !in s.nullifiers)
    && Distinct(d.newCommitments) && (forall c :: c in d.newCommitments ==> !HasCommitment(s, c))
  }

  lemma {:induction false} ComputedIsFresh(r: Runtime, t: Transaction, s: State, blockId: nat, timestamp: nat, d: StateDiff)
    requires ComputeStateDiff(r, t, s, blockId, timestamp) == Success(d)
    ensures Fresh(s, d)
  {
    ComputedDiffIff(r, t, s, blockId, timestamp, d);
    hide ComputeStateDiff, HasCommitment, StatementOf, WrittenIds;
    match t
    case Public(_) =>
    case ProgramDeployment(_) =>
    case PrivacyPreserving(tx) =>
      var actions := tx.message.privateActions;
      forall n | n in d.newNullifiers
        ensures n !in s.nullifiers
      {
        var i :| 0 <= i < |Nullifiers(actions)| && Nullifiers(actions)[i] == n;
        assert actions[i].nullifier == n;
      }
      forall c | c in d.newCommitments
        ensures !HasCommitment(s, c)
      {
        var i :| 0 <= i < |Commitments(actions)| && Commitments(actions)[i] == c;
        assert actions[i].commitment == c;
      }
  }

  lemma {:induction false} BlockDiffIsFresh(l: Ledger, b: Block, s: State, diffs: seq<StateDiff>, i: nat)
    requires Computes(l, b, s, diffs) && i < |diffs|
    ensures Fresh(ApplyDiffs(s, diffs[..i]), diffs[i])
  {
    hide ComputeStateDiff, ApplyDiffs, Fresh;
    assert ComputedAt(l, b, s, diffs, i);
    ComputedIsFresh(l.runtime, b.transactions[i], ApplyDiffs(s, diffs[..i]), b.header.blockId, b.header.timestamp, diffs[i]);
  }

  /** What an earlier diff spent or committed to, a later one of the same block does not. */
  lemma {:induction false} OnceInBlock(l: Ledger, b: Block, s: State, diffs: seq<StateDiff>, i: nat, n: Bytes32)
    requires Computes(l, b, s, diffs) && i < |diffs|
    ensures n in diffs[i].newNullifiers ==> n !in s.nullifiers && forall j :: 0 <= j < |diffs| && j != i ==> n !in diffs[j].newNullifiers
    ensures n in diffs[i].newCommitments ==> !HasCommitment(s, n) && forall j :: 0 <= j < |diffs| && j != i ==> n !in diffs[j].newCommitments
  {
    hide Computes, ApplyDiffs;
    BlockDiffIsFresh(l, b, s, diffs, i);
    EarlierIsOnLedger(s, diffs, i, n);
    forall j | 0 <= j < |diffs| && j != i
      ensures n in diffs[i].newNullifiers ==> n !in diffs[j].newNullifiers
      ensures n in diffs[i].newCommitments ==> n !in diffs[j].newCommitments
    {
      BlockDiffIsFresh(l, b, s, diffs, j);
      EarlierIsOnLedger(s, diffs, j, n);
    }
  }

  /** Before diff `i` the ledger has everything it had and everything earlier diffs brought. */
  lemma {:induction false} EarlierIsOnLedger(s: State, diffs: seq<StateDiff>, i: nat, n: Bytes32)
    requires i < |diffs|
    ensures var t := ApplyDiffs(s, diffs[..i]);
            && (n in s.nullifiers ==> n in t.nullifiers) && (HasCommitment(s, n) ==> HasCommitment(t, n))
            && (forall j :: 0 <= j < i && n in diffs[j].newNullifiers ==> n in t.nullifiers)
            && (forall j :: 0 <= j < i && n in diffs[j].newCommitments ==> HasCommitment(t, n))
  {
    var past := diffs[..i];
    var t := ApplyDiffs(s, past);
    DiffsWrote(s, past);
    hide ApplyDiffs, LastDeployedBy, MentionedFrom;
    forall j | 0 <= j < i
      ensures n in diffs[j].newNullifiers ==> n in t.nullifiers
      ensures n in diffs[j].newCommitments ==> HasCommitment(t, n)
    {
      assert past[j] == diffs[j];
      assert n in diffs[j].newNullifiers ==> SpentIn(past, n);
      assert t.commitmentBatches[|s.commitmentBatches| + j] == diffs[j].newCommitments;
    }
    if HasCommitment(s, n) {
      var k :| 0 <= k < |s.commitmentBatches| && n in s.commitmentBatches[k];
      assert t.commitmentBatches[k] == s.commitmentBatches[k];
    }
  }

  lemma {:induction false} SpentBlockIsSpent(l: Ledger, p: Point, bs: seq<Block>, k: nat, n: Bytes32, m: nat)
    requires Replay(l, p, bs).Some? && SpentByBlock(l, p, bs, k, n) && k < m <= |bs|
    ensures Replay(l, p, bs[..m]).Some? && n in Replay(l, p, bs[..m]).value.state.nullifiers
  {
    ReplayPrefix(l, p, bs, m);
    hide Replay, Computes;
    assert bs[..m][..k] == bs[..k] && bs[..m][k] == bs[k];
    assert SpentByBlock(l, p, bs[..m], k, n);
    ReplayWrote(l, p, bs[..m], Replay(l, p, bs[..m]).value);
  }

  lemma {:induction false} SpentBlockIsNew(l: Ledger, p: Point, bs: seq<Block>, k: nat, n: Bytes32)
    requires SpentByBlock(l, p, bs, k, n)
    ensures n !in Replay(l, p, bs[..k]).value.state.nullifiers
  {
    hide Replay, Computes;
    var s := Replay(l, p, bs[..k]).value.state;
    var diffs: seq<StateDiff> :| Computes(l, bs[k], s, diffs) && |diffs| == |bs[k].transactions| && SpentIn(diffs, n);
    var i :| 0 <= i < |diffs| && n in diffs[i].newNullifiers;
    OnceInBlock(l, bs[k], s, diffs, i, n);
  }

  /** Nothing is spent twice: over any history a nullifier is spent by at most one block, in it by one
      transaction, and not if it was spent before. */
  lemma {:induction false} SpentOnce(l: Ledger, p: Point, bs: seq<Block>, k: nat, k': nat, n: Bytes32)
    requires Replay(l, p, bs).Some? && SpentByBlock(l, p, bs, k, n) && SpentByBlock(l, p, bs, k', n)
    ensures k == k' && n !in p.state.nullifiers
  {
    hide Replay, SpentByBlock;
    var first, last := Min(k, k'), if k < k' then k' else k;
    if k != k' {
      OnlyWithin(l, p, bs, last, n);
      SpentBlockIsSpent(l, p, bs, first, n, last);
      SpentBlockIsNew(l, p, bs, last, n);
      assert false;
    }
    OnlyWithin(l, p, bs, k, n);
    ReplayPrefix(l, p, bs, k);
    ReplayWrote(l, p, bs[..k], Replay(l, p, bs[..k]).value);
    SpentBlockIsNew(l, p, bs, k, n);
  }

  lemma {:induction false} OnlyWithin(l: Ledger, p: Point, bs: seq<Block>, k: nat, n: Bytes32)
    requires SpentByBlock(l, p, bs, k, n)
    ensures k < |bs|
  {
  }

  /** No commitment is on the ledger twice. */
  ghost predicate CommittedOnce(s: State)
  {
    && (forall i :: 0 <= i < |s.commitmentBatches| ==> Distinct(s.commitmentBatches[i]))
    && (forall i, j, c :: 0 <= i < j < |s.commitmentBatches| && c in s.commitmentBatches[i] ==> c !in s.commitmentBatches[j])
  }

  lemma {:induction false} FreshKeepsCommittedOnce(s: State, d: StateDiff)
    requires CommittedOnce(s) && Fresh(s, d)
    ensures CommittedOnce(ApplyDiff(s, d))
  {
    var t := ApplyDiff(s, d);
    hide BumpNonces, Distinct;
    forall i, j, c | 0 <= i < j < |t.commitmentBatches| && c in t.commitmentBatches[i]
      ensures c !in t.commitmentBatches[j]
    {
      if j == |s.commitmentBatches| {
        assert HasCommitment(s, c);
      }
    }
  }

  lemma {:induction false} BlockKeepsCommittedOnce(l: Ledger, b: Block, s: State, diffs: seq<StateDiff>, i: nat)
    requires Computes(l, b, s, diffs) && CommittedOnce(s) && i <= |diffs|
    ensures CommittedOnce(ApplyDiffs(s, diffs[..i]))
  {
    hide Computes, CommittedOnce, ApplyDiff, Fresh;
    if i == 0 {
      assert diffs[..0] == [];
    } else {
      hide ApplyDiffs;
      BlockKeepsCommittedOnce(l, b, s, diffs, i - 1);
      BlockDiffIsFresh(l, b, s, diffs, i - 1);
      assert diffs[..i] == diffs[..i - 1] + [diffs[i - 1]];
      ApplyDiffsSnoc(s, diffs[..i - 1], diffs[i - 1]);
      FreshKeepsCommittedOnce(ApplyDiffs(s, diffs[..i - 1]), diffs[i - 1]);
    }
  }

  /** No commitment is ever added twice. */
  lemma {:induction false} ReplayKeepsCommittedOnce(l: Ledger, p: Point, bs: seq<Block>, q: Point)
    requires Replay(l, p, bs) == Some(q) && CommittedOnce(p.state)
    ensures CommittedOnce(q.state)
    decreases |bs|
  {
    hide CommittedOnce, Extend;
    if bs != [] {
      var n := |bs| - 1;
      assert bs == bs[..n] + [bs[n]];
      ReplayPrefix(l, p, bs, n);
      ReplaySnoc(l, p, bs[..n], bs[n]);
      hide Replay;
      var before := Replay(l, p, bs[..n]).value;
      ReplayKeepsCommittedOnce(l, p, bs[..n], before);
      ExtendIff(l, before, bs[n], q);
      var diffs :| Computes(l, bs[n], before.state, diffs) && |diffs| == |bs[n].transactions| && q.state == ApplyDiffs(before.state, diffs);
      BlockKeepsCommittedOnce(l, bs[n], before.state, diffs, |diffs|);
      assert diffs[..|diffs|] == diffs;
    }
  }

  // ---- messages ----

  /** Transaction `i` of block `k` is a privacy-preserving one with this message. */
  predicate Carries(bs: seq<Block>, k: nat, i: nat, m: PrivateMessage)
  {
    && k < |bs| && i < |bs[k].transactions|
    && bs[k].transactions[i].PrivacyPreserving? && bs[k].transactions[i].ptx.message == m
  }

  /** Each of its nullifiers is spent there. */
  lemma {:induction false} CarriedIsSpent(l: Ledger, p: Point, bs: seq<Block>, k: nat, i: nat, m: PrivateMessage)
    returns (diffs: seq<StateDiff>)
    requires Replay(l, p, bs).Some? && Carries(bs, k, i, m)
    ensures Replay(l, p, bs[..k]).Some?
    ensures Computes(l, bs[k], Replay(l, p, bs[..k]).value.state, diffs) && |diffs| == |bs[k].transactions|
    ensures m.privateActions != [] && m.privateActions[0].nullifier in diffs[i].newNullifiers
    ensures SpentByBlock(l, p, bs, k, m.privateActions[0].nullifier)
  {
    ReplayPrefix(l, p, bs, k);
    ReplayPrefix(l, p, bs, k + 1);
    var before := Replay(l, p, bs[..k]).value;
    ReplayStep(l, p, bs, k, before);
    hide Replay, Extend;
    diffs := BlockWrote(l, before, bs[k], Extend(l, before, bs[k]).value);
    DiffOfMessage(l, bs[k], before.state, diffs, i, m);
  }

  lemma {:induction false} DiffOfMessage(l: Ledger, b: Block, s: State, diffs: seq<StateDiff>, i: nat, m: PrivateMessage)
    requires Computes(l, b, s, diffs) && i < |diffs| && b.transactions[i].PrivacyPreserving? && b.transactions[i].ptx.message == m
    ensures m.privateActions != [] && m.privateActions[0].nullifier in diffs[i].newNullifiers
  {
    assert ComputedAt(l, b, s, diffs, i);
    var t := ApplyDiffs(s, diffs[..i]);
    ComputedDiffIff(l.runtime, b.transactions[i], t, b.header.blockId, b.header.timestamp, diffs[i]);
    hide ComputeStateDiff, ApplyDiffs, HasCommitment, StatementOf;
    assert Nullifiers(m.privateActions)[0] == m.privateActions[0].nullifier;
  }

  /** No privacy-preserving message is applied twice in any history, even if it is signed anew. */
  lemma {:induction false} MessageAppliesOnce(
    l: Ledger, p: Point, bs: seq<Block>, m: PrivateMessage, k: nat, i: nat, k': nat, i': nat)
    requires Replay(l, p, bs).Some? && Carries(bs, k, i, m) && Carries(bs, k', i', m)
    ensures k == k' && i == i'
  {
    hide Replay, SpentByBlock, Computes;
    var diffs := CarriedIsSpent(l, p, bs, k, i, m);
    var diffs' := CarriedIsSpent(l, p, bs, k', i', m);
    var n := m.privateActions[0].nullifier;
    SpentOnce(l, p, bs, k, k', n);
    var s := Replay(l, p, bs[..k]).value.state;
    ComputesUnique(l, bs[k], s, diffs, diffs');
    OnceInBlock(l, bs[k], s, diffs, i, n);
  }

  /** Over any run of events, with whatever reorgs, orphans and failures, the chain a node holds has
      spent nothing twice, applied no privacy-preserving message twice and, if it started so, committed to
      nothing twice. */
  lemma {:induction false} OnceOverRuns(l: Ledger, c: Chain, es: seq<Event>)
    requires WellFormed(l, c) && Run(l, c, es).Some?
    ensures var d := Run(l, c, es).value.chain;
            var bs := History(d);
            && Replay(l, d.base, bs) == Some(HeadPoint(l, d))
            && (forall k: nat, k': nat, n :: SpentByBlock(l, d.base, bs, k, n) && SpentByBlock(l, d.base, bs, k', n) ==> k == k')
            && (forall m, k: nat, i: nat, k': nat, i': nat :: Carries(bs, k, i, m) && Carries(bs, k', i', m) ==> k == k' && i == i')
            && (CommittedOnce(d.base.state) ==> CommittedOnce(HeadPoint(l, d).state))
  {
    var d := Run(l, c, es).value.chain;
    var bs := History(d);
    hide Run, Carries, SpentByBlock, CommittedOnce;
    HistoryReplays(l, d);
    forall k: nat, k': nat, n | SpentByBlock(l, d.base, bs, k, n) && SpentByBlock(l, d.base, bs, k', n)
      ensures k == k'
    {
      SpentOnce(l, d.base, bs, k, k', n);
    }
    forall m, k: nat, i: nat, k': nat, i': nat | Carries(bs, k, i, m) && Carries(bs, k', i', m)
      ensures k == k' && i == i'
    {
      MessageAppliesOnce(l, d.base, bs, m, k, i, k', i');
    }
    if CommittedOnce(d.base.state) {
      ReplayKeepsCommittedOnce(l, d.base, bs, HeadPoint(l, d));
    }
  }

  // ---- settlement ----

  /** A run of the circuit: the called program, the witnesses, the program outputs and the padding. */
  datatype CircuitRun = CircuitRun(
    program: ProgramId, ids: seq<InputAccountIdentity>, outputs: seq<ProgramOutput>, dummies: seq<DummyInput>)

  /** The circuit accepts the run and reveals `out`. */
  ghost predicate Produces(x: Crypto, c: Sealing, run: CircuitRun, out: CircuitOutput)
  {
    var d := Derive(x, run.ids, run.program, run.outputs);
    && d.Some? && AcceptedAs(x, run.ids, run.program, run.outputs, d.value.exec)
    && Reveals(x, c, run.ids, d.value.exec, run.dummies, out)
    && out.blockWindow == d.value.blockWindow && out.timestampWindow == d.value.timestampWindow
  }

  /** Only what some run of the circuit produces can be proven. */
  ghost predicate SoundProofs(v: Verifier, x: Crypto, c: Sealing)
  {
    forall proof, out :: v.proofValid(proof, out) ==> exists run :: Produces(x, c, run, out)
  }

  function LedgerTotal(s: State, ids: seq<AccountId>): nat
  {
    if ids == [] then 0 else LedgerTotal(s, ids[..|ids| - 1]) + GetAccount(s, ids[|ids| - 1]).balance
  }

  /** The public side of a statement adds up to what the ledger holds before and after. */
  lemma {:induction false} PublicTotals(v: Verifier, tx: PrivateTransaction, s: State, t: State, n: nat)
    requires n <= |tx.message.publicActions|
    requires forall i :: 0 <= i < |tx.message.publicActions| ==>
               GetAccount(t, tx.message.publicActions[i].accountId).balance == tx.message.publicActions[i].postState.balance
    ensures PreTotal(StatementOf(v, tx, s).publicActions[..n]) == LedgerTotal(s, WrittenIds(tx.message)[..n])
    ensures PostTotal(StatementOf(v, tx, s).publicActions[..n]) == LedgerTotal(t, WrittenIds(tx.message)[..n])
  {
    if n > 0 {
      PublicTotals(v, tx, s, t, n - 1);
      var pairs, ids := StatementOf(v, tx, s).publicActions, WrittenIds(tx.message);
      assert pairs[..n][..n - 1] == pairs[..n - 1] && ids[..n][..n - 1] == ids[..n - 1];
    }
  }

  lemma {:induction false} WrittenBalances(r: Runtime, tx: PrivateTransaction, s: State, blockId: nat, timestamp: nat, d: StateDiff)
    requires ComputeStateDiff(r, PrivacyPreserving(tx), s, blockId, timestamp) == Success(d)
    ensures forall i :: 0 <= i < |tx.message.publicActions| ==>
              GetAccount(ApplyDiff(s, d), tx.message.publicActions[i].accountId).balance == tx.message.publicActions[i].postState.balance
  {
    ComputedDiffIff(r, PrivacyPreserving(tx), s, blockId, timestamp, d);
    ApplyDiffWrites(s, d);
    hide ComputeStateDiff, Verifies, ApplyDiff;
    forall i | 0 <= i < |tx.message.publicActions|
      ensures GetAccount(ApplyDiff(s, d), tx.message.publicActions[i].accountId).balance == tx.message.publicActions[i].postState.balance
    {
      assert WrittenIds(tx.message)[i] == tx.message.publicActions[i].accountId;
    }
  }

  /** What the run moved between the ledger's public accounts and private ones. */
  ghost predicate ValueSettled(x: Crypto, c: Sealing, run: CircuitRun, ids: seq<AccountId>, s: State, t: State, out: CircuitOutput)
    requires Produces(x, c, run, out)
  {
    var exec := Derive(x, run.ids, run.program, run.outputs).value.exec;
    && LedgerTotal(s, ids) + SpentBefore(run.ids, ExitPairs(exec), |run.ids|)
       == LedgerTotal(t, ids) + HiddenAfter(c, run.ids, ExitPairs(exec), |run.ids|)
    && UpdatesAreOpened(c, run.ids, exec, out)
  }

  lemma {:induction false} RunSettlesValue(
    x: Crypto, c: Sealing, run: CircuitRun, v: Verifier, tx: PrivateTransaction, s: State, t: State)
    requires Produces(x, c, run, StatementOf(v, tx, s))
    requires forall i :: 0 <= i < |tx.message.publicActions| ==>
               GetAccount(t, tx.message.publicActions[i].accountId).balance == tx.message.publicActions[i].postState.balance
    ensures ValueSettled(x, c, run, WrittenIds(tx.message), s, t, StatementOf(v, tx, s))
  {
    var out, k := StatementOf(v, tx, s), |tx.message.publicActions|;
    PublicTotals(v, tx, s, t, k);
    assert out.publicActions[..k] == out.publicActions && WrittenIds(tx.message)[..k] == WrittenIds(tx.message);
    hide Derive, Reveals, Sealable, UpdatesAreOpened, LedgerTotal, PreTotal, PostTotal, SpentBefore, HiddenAfter, HiddenBefore, StatementOf;
    var exec := Derive(x, run.ids, run.program, run.outputs).value.exec;
    ValueIsConserved(x, c, run.ids, run.program, run.outputs, exec, run.dummies, out);
  }

  lemma {:induction false} RunAllowsBlock(x: Crypto, c: Sealing, run: CircuitRun, out: CircuitOutput, blockId: nat, timestamp: nat)
    requires Produces(x, c, run, out) && ValidFor(out.blockWindow, blockId) && ValidFor(out.timestampWindow, timestamp)
    ensures forall i :: 0 <= i < |run.outputs| ==>
              ValidFor(run.outputs[i].blockWindow, blockId) && ValidFor(run.outputs[i].timestampWindow, timestamp)
  {
    hide Derive, Reveals, Sealable, ValidFor, AcceptedAs;
    AcceptedWindows(x, run.ids, run.program, run.outputs, blockId);
    AcceptedWindows(x, run.ids, run.program, run.outputs, timestamp);
  }

  /** If only what the circuit produces can be proven, then an applied privacy-preserving transaction
      settles a circuit run on the ledger: the balances of its public accounts on the ledger before, plus
      those of the private accounts it spends, are the balances on the ledger after, plus those sealed
      into new notes; every private account it updates is opened against a root the ledger has had; and
      every program it ran allows the height and time of the block. */
  lemma {:induction false} Settles(
    r: Runtime, x: Crypto, c: Sealing, tx: PrivateTransaction, s: State, blockId: nat, timestamp: nat, d: StateDiff)
    returns (run: CircuitRun)
    requires ComputeStateDiff(r, PrivacyPreserving(tx), s, blockId, timestamp) == Success(d) && SoundProofs(r.verifier, x, c)
    ensures Produces(x, c, run, StatementOf(r.verifier, tx, s))
    ensures ValueSettled(x, c, run, WrittenIds(tx.message), s, ApplyDiff(s, d), StatementOf(r.verifier, tx, s))
    ensures forall i :: 0 <= i < |tx.message.privateActions| ==> r.verifier.knownRoot(s.commitmentBatches, tx.message.privateActions[i].root)
    ensures forall i :: 0 <= i < |run.outputs| ==>
              ValidFor(run.outputs[i].blockWindow, blockId) && ValidFor(run.outputs[i].timestampWindow, timestamp)
  {
    ComputedDiffIff(r, PrivacyPreserving(tx), s, blockId, timestamp, d);
    WrittenBalances(r, tx, s, blockId, timestamp, d);
    hide ComputeStateDiff, ApplyDiff, HasCommitment, Produces, ValidFor, Distinct, ValueSettled;
    var out := StatementOf(r.verifier, tx, s);
    run :| Produces(x, c, run, out);
    RunSettlesValue(x, c, run, r.verifier, tx, s, ApplyDiff(s, d));
    RunAllowsBlock(x, c, run, out, blockId, timestamp);
  }

  /** The public accounts of a settled run were found as the ledger has them, and authorized exactly if
      they signed. */
  lemma {:induction false} PublicAccountsAreTheLedgers(
    x: Crypto, c: Sealing, run: CircuitRun, v: Verifier, tx: PrivateTransaction, s: State, pos: nat)
    requires Produces(x, c, run, StatementOf(v, tx, s))
    requires pos < |run.ids| && run.ids[pos].PublicIdentity?
    ensures var pre := Derive(x, run.ids, run.program, run.outputs).value.exec.preStates[pos];
            && pre.account == GetAccount(s, pre.accountId)
            && (pre.isAuthorized <==> pre.accountId in PrivateSigners(v, tx))
  {
    var exec, out := Derive(x, run.ids, run.program, run.outputs).value.exec, StatementOf(v, tx, s);
    hide Derive, Reveals, PrivateSigners;
    RevealedExactly(x, c, run.ids, exec, run.dummies, out);
    var i := PublicCount(run.ids, pos);
    hide Sealable, PublicCount;
    assert out.publicActions[i].pre == exec.preStates[pos];
  }

  /** Custody of public accounts: if any call of a settled run presents a public account as authorized,
      the account signed the transaction, or a seed given to that call, or to an ancestor that reads the
      account, derives it. */
  lemma {:induction false} PublicAccountNeedsSignature(
    x: Crypto, c: Sealing, run: CircuitRun, v: Verifier, tx: PrivateTransaction, s: State, f: Calls, visit: Visit, pos: nat)
    requires Produces(x, c, run, StatementOf(v, tx, s)) && IsCallTree(x, run.program, run.outputs, f)
    requires visit in Visits(f, [RootFrame(run.program, run.outputs[0])], [])
    requires pos < |run.ids| && run.ids[pos].PublicIdentity?
    requires Derive(x, run.ids, run.program, run.outputs).value.exec.preStates[pos].accountId in AuthorizedIn(visit.self.output.preStates)
    ensures var journal := Derive(x, run.ids, run.program, run.outputs).value.exec.preStates;
            || journal[pos].accountId in PrivateSigners(v, tx)
            || GrantedOnPath(x, run.ids, journal, visit.ancestors + [visit.self], journal[pos].accountId)
  {
    var journal := Derive(x, run.ids, run.program, run.outputs).value.exec.preStates;
    var id := journal[pos].accountId;
    hide Derive, Reveals, Visits, IsCallTree, AuthorizedIn, GrantedOnPath, PrivateSigners, Lists, Sealable, Consistent, Total, StatementOf;
    PresentedIsListed(visit.self.output, id);
    AcceptedAuthority(x, run.ids, run.program, run.outputs, f, visit, id);
    if FreelyAuthorized(x, run.ids, journal, id) {
      hide FreelyAuthorized, Distinct;
      AcceptedThreading(x, run.ids, run.program, run.outputs);
      FreeIsJournaled(x, run.ids, journal, pos);
      PublicAccountsAreTheLedgers(x, c, run, v, tx, s, pos);
    }
  }

  lemma {:induction false} FreeIsJournaled(
    x: Crypto, ids: seq<InputAccountIdentity>, journal: seq<AccountWithMetadata>, pos: nat)
    requires Distinct(IdsOf(journal)) && pos < |journal| && FreelyAuthorized(x, ids, journal, journal[pos].accountId)
    ensures journal[pos].isAuthorized
  {
    var i: nat :| i < |journal| && journal[i].accountId == journal[pos].accountId && journal[i].isAuthorized && PdaKeysAt(x, ids, i).None?;
    assert IdsOf(journal)[i] == IdsOf(journal)[pos];
  }
}
