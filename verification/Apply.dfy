/** Validating a block against a tip and applying it (`lez/chain_state/src/apply.rs`). */
module Applying {
  import opened Prelude
  import opened LedgerState
  import opened Validation
  import opened Transactions
  import opened Blocks

  datatype Tip = Tip(blockId: nat, hash: Hash)

  function TipOf(b: Block): Tip
  {
    Tip(b.header.blockId, b.header.hash)
  }

  datatype BlockIngestError =
    | UnexpectedBlockId(expected: nat, got: nat)
    | BrokenChainLink(expectedPrev: Hash, gotPrev: Hash)
    | HashMismatch(computed: Hash, header: Hash)
    | EmptyBlock
    | InvalidClockTransaction
    | NonPublicGenesisTransaction
    | StateTransition(txIndex: nat, reason: LeeError)

  /** The ledger after an attempted application, which on an error keeps the transactions that
      ran before it. */
  datatype Attempt = Attempt(state: State, error: Option<BlockIngestError>)

  function ValidateAgainstTip(l: Ledger, tip: Option<Tip>, b: Block): (error: Option<BlockIngestError>)
    ensures error.None? <==> Continues(l, tip, b)
  {
    var computed := RecomputeHash(l, b);
    if computed != b.header.hash then Some(HashMismatch(computed, b.header.hash))
    else
      match tip
      case None =>
        if b.header.blockId != GENESIS_BLOCK_ID then Some(UnexpectedBlockId(GENESIS_BLOCK_ID, b.header.blockId))
        else None
      case Some(t) =>
        if b.header.blockId != t.blockId + 1 then Some(UnexpectedBlockId(t.blockId + 1, b.header.blockId))
        else if b.header.prevBlockHash != t.hash then Some(BrokenChainLink(t.hash, b.header.prevBlockHash))
        else None
  }

  /** `b` carries its own hash and is the next block after `tip`. */
  ghost predicate Continues(l: Ledger, tip: Option<Tip>, b: Block)
  {
    && b.header.hash == RecomputeHash(l, b)
    && b.header.blockId == (if tip.None? then GENESIS_BLOCK_ID else tip.value.blockId + 1)
    && (tip.Some? ==> b.header.prevBlockHash == tip.value.hash)
  }

  /** One user transaction of block `b`; the genesis block admits public ones only. */
  function ApplyUserTx(l: Ledger, b: Block, i: nat, s: State): Attempt
    requires i < |b.transactions|
  {
    if b.header.blockId == GENESIS_BLOCK_ID && !b.transactions[i].Public? then
      Attempt(s, Some(NonPublicGenesisTransaction))
    else
      match ComputeStateDiff(l.runtime, b.transactions[i], s, b.header.blockId, b.header.timestamp)
      case Success(diff) => Attempt(ApplyDiff(s, diff), None)
      case Failure(err) => Attempt(s, Some(StateTransition(i, err)))
  }

  /** The first `n` user transactions of `b`, stopping at the first failure. */
  function ApplyUserTxs(l: Ledger, b: Block, n: nat, s: State): Attempt
    requires n <= |b.transactions|
  {
    if n == 0 then Attempt(s, None)
    else
      var before := ApplyUserTxs(l, b, n - 1, s);
      if before.error.Some? then before else ApplyUserTx(l, b, n - 1, before.state)
  }

  function ApplyToState(l: Ledger, b: Block, s: State): Attempt
  {
    if b.transactions == [] then Attempt(s, Some(EmptyBlock))
    else
      var last := |b.transactions| - 1;
      if b.transactions[last] != Public(l.runtime.clockInvocation(b.header.timestamp)) then
        Attempt(s, Some(InvalidClockTransaction))
      else
        var before := ApplyUserTxs(l, b, last, s);
        if before.error.Some? then before else ApplyUserTx(l, b, last, before.state)
  }

  function ApplyBlock(l: Ledger, tip: Option<Tip>, b: Block, s: State): Attempt
  {
    match ValidateAgainstTip(l, tip, b)
    case Some(err) => Attempt(s, Some(err))
    case None => ApplyToState(l, b, s)
  }

  method ApplyBlockToState(l: Ledger, b: Block, state: V03State) returns (error: Option<BlockIngestError>)
    modifies state
    ensures Attempt(state.contents, error) == ApplyToState(l, b, old(state.contents))
  {
    hide ComputeStateDiff, ApplyDiff;
    if |b.transactions| == 0 {
      return Some(EmptyBlock);
    }
    var last := |b.transactions| - 1;
    if b.transactions[last] != Public(l.runtime.clockInvocation(b.header.timestamp)) {
      return Some(InvalidClockTransaction);
    }
    var isGenesis := b.header.blockId == GENESIS_BLOCK_ID;
    for txIndex := 0 to last
      invariant ApplyUserTxs(l, b, txIndex, old(state.contents)) == Attempt(state.contents, None)
    {
      if isGenesis && !b.transactions[txIndex].Public? {
        StopsAt(l, b, txIndex, last, old(state.contents));
        return Some(NonPublicGenesisTransaction);
      }
      var failure := ExecuteOnState(l.runtime, b.transactions[txIndex], state, b.header.blockId, b.header.timestamp);
      if failure.Some? {
        StopsAt(l, b, txIndex, last, old(state.contents));
        return Some(StateTransition(txIndex, failure.value));
      }
    }
    var failure := ExecuteOnState(l.runtime, b.transactions[last], state, b.header.blockId, b.header.timestamp);
    error := if failure.Some? then Some(StateTransition(last, failure.value)) else None;
  }

  /** `apply_block`: validates, then applies in place. */
  method ApplyBlockInPlace(l: Ledger, tip: Option<Tip>, b: Block, state: V03State)
    returns (error: Option<BlockIngestError>)
    modifies state
    ensures Attempt(state.contents, error) == ApplyBlock(l, tip, b, old(state.contents))
  {
    error := ValidateAgainstTip(l, tip, b);
    if error.None? {
      error := ApplyBlockToState(l, b, state);
    }
  }

  /** Nothing runs after the first failing transaction. */
  lemma {:induction false} StopsAt(l: Ledger, b: Block, i: nat, n: nat, s: State)
    requires i < n <= |b.transactions|
    requires ApplyUserTxs(l, b, i + 1, s).error.Some?
    ensures ApplyUserTxs(l, b, n, s) == ApplyUserTxs(l, b, i + 1, s)
    decreases n
  {
    hide ApplyUserTx;
    if n > i + 1 {
      StopsAt(l, b, i, n - 1, s);
    }
  }

  /** Transaction `i` of `b` takes `s` to `s'`. */
  predicate TxStep(l: Ledger, b: Block, i: nat, s: State, s': State)
    requires i < |b.transactions|
  {
    && (b.header.blockId == GENESIS_BLOCK_ID ==> b.transactions[i].Public?)
    && var diff := ComputeStateDiff(l.runtime, b.transactions[i], s, b.header.blockId, b.header.timestamp);
       diff.Success? && s' == ApplyDiff(s, diff.value)
  }

  predicate StepAt(l: Ledger, b: Block, trace: seq<State>, i: nat)
    requires i < |b.transactions| && i + 1 < |trace|
  {
    TxStep(l, b, i, trace[i], trace[i + 1])
  }

  /** `trace` is the ledger before the first, after the first, ... after the last transaction. */
  ghost predicate BlockTrace(l: Ledger, b: Block, trace: seq<State>, n: nat)
    requires n <= |b.transactions|
  {
    |trace| == n + 1 && forall i :: 0 <= i < n ==> StepAt(l, b, trace, i)
  }

  lemma {:induction false} UserTxSteps(l: Ledger, b: Block, i: nat, s: State)
    requires i < |b.transactions| && ApplyUserTx(l, b, i, s).error.None?
    ensures TxStep(l, b, i, s, ApplyUserTx(l, b, i, s).state)
  {
    hide ComputeStateDiff, ApplyDiff;
  }

  lemma {:induction false} TraceExtends(l: Ledger, b: Block, n: nat, trace: seq<State>, last: State)
    requires 0 < n <= |b.transactions| && BlockTrace(l, b, trace, n - 1) && TxStep(l, b, n - 1, trace[n - 1], last)
    ensures BlockTrace(l, b, trace + [last], n)
  {
    hide TxStep;
    forall i | 0 <= i < n
      ensures StepAt(l, b, trace + [last], i)
    {
      assert i < n - 1 ==> StepAt(l, b, trace, i);
    }
  }

  lemma {:induction false} UserTxsTrace(l: Ledger, b: Block, n: nat, s: State) returns (trace: seq<State>)
    requires n <= |b.transactions|
    requires ApplyUserTxs(l, b, n, s).error.None?
    ensures BlockTrace(l, b, trace, n) && trace[0] == s && trace[n] == ApplyUserTxs(l, b, n, s).state
  {
    hide ApplyUserTx, TxStep, StepAt;
    if n == 0 {
      trace := [s];
    } else {
      var before := UserTxsTrace(l, b, n - 1, s);
      UserTxSteps(l, b, n - 1, before[n - 1]);
      trace := before + [ApplyUserTxs(l, b, n, s).state];
      TraceExtends(l, b, n, before, ApplyUserTxs(l, b, n, s).state);
    }
  }

  lemma {:induction false} TraceFixesUserTxs(l: Ledger, b: Block, n: nat, s: State, trace: seq<State>)
    requires n <= |b.transactions|
    requires BlockTrace(l, b, trace, n) && trace[0] == s
    ensures ApplyUserTxs(l, b, n, s) == Attempt(trace[n], None)
  {
    hide ComputeStateDiff, ApplyDiff;
    if n > 0 {
      forall i | 0 <= i < n - 1
        ensures StepAt(l, b, trace[..n], i)
      {
        assert StepAt(l, b, trace, i);
      }
      TraceFixesUserTxs(l, b, n - 1, s, trace[..n]);
      assert StepAt(l, b, trace, n - 1);
    }
  }

  /** A block applies, with result `s'`, exactly when it continues the tip, ends in the clock
      invocation for its own timestamp, and its transactions form a trace from `s` to `s'`. */
  lemma {:induction false} BlockAppliesIff(l: Ledger, tip: Option<Tip>, b: Block, s: State, s': State)
    ensures ApplyBlock(l, tip, b, s) == Attempt(s', None)
            <==> && Continues(l, tip, b)
                 && b.transactions != []
                 && b.transactions[|b.transactions| - 1] == Public(l.runtime.clockInvocation(b.header.timestamp))
                 && exists trace :: BlockTrace(l, b, trace, |b.transactions|) && trace[0] == s && trace[|b.transactions|] == s'
  {
    hide ComputeStateDiff, ApplyDiff, StepAt;
    if b.transactions != [] {
      var n := |b.transactions|;
      if ApplyBlock(l, tip, b, s) == Attempt(s', None) {
        assert ApplyUserTxs(l, b, n, s) == Attempt(s', None);
        var trace := UserTxsTrace(l, b, n, s);
      }
      if && Continues(l, tip, b)
         && b.transactions[n - 1] == Public(l.runtime.clockInvocation(b.header.timestamp))
         && exists trace :: BlockTrace(l, b, trace, n) && trace[0] == s && trace[n] == s' {
        var trace :| BlockTrace(l, b, trace, n) && trace[0] == s && trace[n] == s';
        TraceFixesUserTxs(l, b, n, s, trace);
      }
    }
  }

  /** The index reported for a failed transition is that of the first transaction that fails: all
      earlier ones ran, and the ledger is left as they made it. */
  lemma {:induction false} FailureIndexIsFirst(l: Ledger, b: Block, n: nat, s: State, i: nat, reason: LeeError)
    requires n <= |b.transactions|
    requires ApplyUserTxs(l, b, n, s).error == Some(StateTransition(i, reason))
    ensures i < n
    ensures ApplyUserTxs(l, b, i, s) == Attempt(ApplyUserTxs(l, b, n, s).state, None)
    ensures ComputeStateDiff(l.runtime, b.transactions[i], ApplyUserTxs(l, b, i, s).state, b.header.blockId, b.header.timestamp)
            == Failure(reason)
  {
    hide ComputeStateDiff, ApplyDiff;
    if ApplyUserTxs(l, b, n - 1, s).error.Some? {
      FailureIndexIsFirst(l, b, n - 1, s, i, reason);
    }
  }
}
