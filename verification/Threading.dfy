/** How account states thread through a transaction, and what it conserves. */
module Threading {
  import opened Prelude
  import opened LedgerState
  import opened Programs
  import opened Execution
  import opened ExecutionInvariants
  import opened CallTrees

  /** A program leaving an account, found as `pre`, as `post`. */
  datatype Touch = Touch(program: ProgramId, pre: AccountWithMetadata, post: AccountPostState)

  datatype Entry = Entry(id: AccountId, account: Account)

  function TouchesUpTo(
    program: ProgramId, pres: seq<AccountWithMetadata>, posts: seq<AccountPostState>, n: nat): (r: seq<Touch>)
    requires n <= |pres| && n <= |posts|
    ensures |r| == n
  {
    seq(n, i requires 0 <= i < n => Touch(program, pres[i], posts[i]))
  }

  /** Everything a list of outputs does to accounts, in order. */
  function Touches(outputs: seq<ProgramOutput>): seq<Touch>
  {
    if outputs == [] then []
    else
      var out := outputs[|outputs| - 1];
      Touches(outputs[..|outputs| - 1])
      + TouchesUpTo(out.selfProgramId, out.preStates, out.postStates, Min(|out.preStates|, |out.postStates|))
  }

  /** The state each touched account was last left in. */
  function LastPosts(ts: seq<Touch>): map<AccountId, Account>
  {
    if ts == [] then map[]
    else
      var t := ts[|ts| - 1];
      LastPosts(ts[..|ts| - 1])[t.pre.accountId := Settled(t.program, t.post)]
  }

  /** Each touched account once, in order of first touch, as it was first found. */
  function FirstPres(ts: seq<Touch>): seq<Entry>
  {
    if ts == [] then []
    else
      var before, t := ts[..|ts| - 1], ts[|ts| - 1];
      FirstPres(before) + if t.pre.accountId in LastPosts(before) then [] else [Entry(t.pre.accountId, t.pre.account)]
  }

  /** Every touch finds its account as the touch before it left it. */
  predicate Consistent(ts: seq<Touch>)
  {
    if ts == [] then true
    else
      var before, t := ts[..|ts| - 1], ts[|ts| - 1];
      Consistent(before) && (t.pre.accountId in LastPosts(before) ==> t.pre.account == LastPosts(before)[t.pre.accountId])
  }

  function EntriesOf(pres: seq<AccountWithMetadata>): (r: seq<Entry>)
    ensures |r| == |pres|
    ensures forall i :: 0 <= i < |pres| ==> r[i] == Entry(pres[i].accountId, pres[i].account)
  {
    seq(|pres|, i requires 0 <= i < |pres| => Entry(pres[i].accountId, pres[i].account))
  }

  /** The execution state records exactly what the touches did. */
  ghost predicate Records(s: Exec, ts: seq<Touch>)
  {
    Consistent(ts) && s.postStates == LastPosts(ts) && EntriesOf(s.preStates) == FirstPres(ts)
  }

  lemma {:induction false} TouchRecords(
    s: Exec, t: Exec, ts: seq<Touch>, program: ProgramId, pre: AccountWithMetadata, post: AccountPostState)
    requires Records(s, ts) && Touched(s, t, pre, Settled(program, post))
    requires pre.accountId in s.postStates ==> s.postStates[pre.accountId] == pre.account
    ensures Records(t, ts + [Touch(program, pre, post)])
  {
    var all := ts + [Touch(program, pre, post)];
    assert all[..|all| - 1] == ts;
    if pre.accountId in s.postStates {
      assert FirstPres(all) == FirstPres(ts) + [];
    } else {
      EntriesOfExtended(s.preStates, t.preStates, pre);
    }
  }

  lemma {:induction false} EntriesOfExtended(
    pres: seq<AccountWithMetadata>, more: seq<AccountWithMetadata>, pre: AccountWithMetadata)
    requires |more| == |pres| + 1 && pres <= more
    requires more[|pres|].accountId == pre.accountId && more[|pres|].account == pre.account
    ensures EntriesOf(more) == EntriesOf(pres) + [Entry(pre.accountId, pre.account)]
  {
  }

  // ---- balances ----

  /** Current balances of the journaled accounts, in journal order. */
  function CurrentBalances(pres: seq<AccountWithMetadata>, posts: map<AccountId, Account>): (r: seq<Balance>)
    requires forall i :: 0 <= i < |pres| ==> pres[i].accountId in posts
    ensures |r| == |pres|
    ensures forall i :: 0 <= i < |pres| ==> r[i] == posts[pres[i].accountId].balance
  {
    seq(|pres|, i requires 0 <= i < |pres| => posts[pres[i].accountId].balance)
  }

  lemma {:induction false} JournaledAreKnown(s: Exec)
    requires Threaded(s)
    ensures forall i :: 0 <= i < |s.preStates| ==> s.preStates[i].accountId in s.postStates
  {
    forall i | 0 <= i < |s.preStates|
      ensures s.preStates[i].accountId in s.postStates
    {
      assert IdsOf(s.preStates)[i] in IdSet(IdsOf(s.preStates));
    }
  }

  lemma {:induction false} TotalUpdate(bs: seq<Balance>, i: nat, v: Balance)
    requires i < |bs|
    ensures Total(bs[i := v]) == Total(bs) - bs[i] + v
    decreases |bs|
  {
    var n := |bs| - 1;
    if i == n {
      assert bs[i := v][..n] == bs[..n];
    } else {
      TotalUpdate(bs[..n], i, v);
      assert bs[i := v][..n] == bs[..n][i := v];
    }
  }

  lemma {:induction false} TotalSnoc(bs: seq<Balance>, v: Balance)
    ensures Total(bs + [v]) == Total(bs) + v
  {
    assert (bs + [v])[..|bs|] == bs;
  }

  /** How far the current total of the journaled accounts is above their journaled total. */
  ghost function Gain(s: Exec): int
    requires Threaded(s)
  {
    JournaledAreKnown(s);
    Total(CurrentBalances(s.preStates, s.postStates)) - Total(PreBalances(s.preStates))
  }

  /** Touching a known account replaces its current balance. */
  lemma {:induction false} KnownTouchGain(s: Exec, t: Exec, pre: AccountWithMetadata, after: Account, pos: nat)
    requires Threaded(s) && Threaded(t) && t.preStates == s.preStates && t.postStates == s.postStates[pre.accountId := after]
    requires pos < |s.preStates| && s.preStates[pos].accountId == pre.accountId
    requires pre.accountId in s.postStates && s.postStates[pre.accountId] == pre.account
    ensures Gain(t) == Gain(s) + after.balance - pre.account.balance
  {
    JournaledAreKnown(s);
    JournaledAreKnown(t);
    OnlyPosition(s, pre.accountId, pos);
    hide Threaded, Total;
    var was, now := CurrentBalances(s.preStates, s.postStates), CurrentBalances(t.preStates, t.postStates);
    assert now == was[pos := after.balance];
    TotalUpdate(was, pos, after.balance);
  }

  lemma {:induction false} NewTouchBalances(s: Exec, t: Exec, pre: AccountWithMetadata, after: Account)
    requires (forall i :: 0 <= i < |s.preStates| ==> s.preStates[i].accountId in s.postStates)
    requires t.postStates == s.postStates[pre.accountId := after] && pre.accountId !in s.postStates
    requires |t.preStates| == |s.preStates| + 1 && s.preStates <= t.preStates
    requires t.preStates[|s.preStates|].accountId == pre.accountId && t.preStates[|s.preStates|].account == pre.account
    ensures forall i :: 0 <= i < |t.preStates| ==> t.preStates[i].accountId in t.postStates
    ensures CurrentBalances(t.preStates, t.postStates) == CurrentBalances(s.preStates, s.postStates) + [after.balance]
    ensures PreBalances(t.preStates) == PreBalances(s.preStates) + [pre.account.balance]
  {
    forall i | 0 <= i < |s.preStates|
      ensures t.preStates[i] == s.preStates[i]
    {
    }
  }

  /** Touching a new account adds it to both totals. */
  lemma {:induction false} NewTouchGain(s: Exec, t: Exec, pre: AccountWithMetadata, after: Account)
    requires Threaded(s) && Threaded(t) && t.postStates == s.postStates[pre.accountId := after]
    requires pre.accountId !in s.postStates
    requires |t.preStates| == |s.preStates| + 1 && s.preStates <= t.preStates
    requires t.preStates[|s.preStates|].accountId == pre.accountId && t.preStates[|s.preStates|].account == pre.account
    ensures Gain(t) == Gain(s) + after.balance - pre.account.balance
  {
    hide Threaded, Total;
    JournaledAreKnown(s);
    NewTouchBalances(s, t, pre, after);
    TotalSnoc(CurrentBalances(s.preStates, s.postStates), after.balance);
    TotalSnoc(PreBalances(s.preStates), pre.account.balance);
  }

  /** Touching an account moves the gain by what the touch itself moved. */
  lemma {:induction false} TouchGain(s: Exec, t: Exec, pre: AccountWithMetadata, after: Account)
    requires Threaded(s) && Threaded(t) && Touched(s, t, pre, after)
    requires pre.accountId in s.postStates ==> s.postStates[pre.accountId] == pre.account
    ensures Gain(t) == Gain(s) + after.balance - pre.account.balance
  {
    KnownIffJournaled(s, pre.accountId);
    hide Threaded, Gain;
    if pre.accountId in s.postStates {
      KnownTouchGain(s, t, pre, after, PositionIn(s.preStates, pre.accountId).value);
    } else {
      NewTouchGain(s, t, pre, after);
    }
  }

  lemma {:induction false} OnlyPosition(s: Exec, id: AccountId, pos: nat)
    requires Threaded(s) && pos < |s.preStates| && s.preStates[pos].accountId == id
    ensures forall i :: 0 <= i < |s.preStates| && i != pos ==> s.preStates[i].accountId != id
  {
    forall i | 0 <= i < |s.preStates| && i != pos
      ensures s.preStates[i].accountId != id
    {
      assert IdsOf(s.preStates)[i] != IdsOf(s.preStates)[pos];
    }
  }

  // ---- whole calls ----

  /** The first `n` pairs of a call keep the invariant and only ever append to the journal. */
  lemma {:induction false} SyncKeepsInvariant(
    x: Crypto, ids: seq<InputAccountIdentity>, s: Exec, program: ProgramId, caller: CallerData, seeds: seq<PdaSeed>,
    pres: seq<AccountWithMetadata>, posts: seq<AccountPostState>, n: nat)
    requires n <= |pres| && n <= |posts|
    requires Invariant(x, ids, s) && SyncUpTo(x, ids, s, program, caller, seeds, pres, posts, n).Some?
    ensures var t := SyncUpTo(x, ids, s, program, caller, seeds, pres, posts, n).value;
            Invariant(x, ids, t) && s.preStates <= t.preStates
  {
    hide SyncOne, Invariant;
    if n > 0 {
      SyncKeepsInvariant(x, ids, s, program, caller, seeds, pres, posts, n - 1);
      SyncOneKeepsInvariant(x, ids, SyncUpTo(x, ids, s, program, caller, seeds, pres, posts, n - 1).value,
                            program, caller, seeds, pres[n - 1], posts[n - 1]);
    }
  }

  /** They record their touches. */
  lemma {:induction false} SyncRecords(
    x: Crypto, ids: seq<InputAccountIdentity>, s: Exec, program: ProgramId, caller: CallerData, seeds: seq<PdaSeed>,
    pres: seq<AccountWithMetadata>, posts: seq<AccountPostState>, n: nat, ts: seq<Touch>)
    requires n <= |pres| && n <= |posts|
    requires Invariant(x, ids, s) && Records(s, ts)
    requires SyncUpTo(x, ids, s, program, caller, seeds, pres, posts, n).Some?
    ensures Records(SyncUpTo(x, ids, s, program, caller, seeds, pres, posts, n).value, ts + TouchesUpTo(program, pres, posts, n))
  {
    hide SyncOne, Invariant, Records;
    if n == 0 {
      assert ts + TouchesUpTo(program, pres, posts, 0) == ts;
    } else {
      SyncRecords(x, ids, s, program, caller, seeds, pres, posts, n - 1, ts);
      SyncKeepsInvariant(x, ids, s, program, caller, seeds, pres, posts, n - 1);
      var before := SyncUpTo(x, ids, s, program, caller, seeds, pres, posts, n - 1).value;
      var t := SyncUpTo(x, ids, s, program, caller, seeds, pres, posts, n).value;
      var ts' := ts + TouchesUpTo(program, pres, posts, n - 1);
      SyncOneKeepsInvariant(x, ids, before, program, caller, seeds, pres[n - 1], posts[n - 1]);
      TouchRecords(before, t, ts', program, pres[n - 1], posts[n - 1]);
      assert ts + TouchesUpTo(program, pres, posts, n) == ts' + [Touch(program, pres[n - 1], posts[n - 1])];
    }
  }

  /** They gain what they moved. */
  lemma {:induction false} SyncGains(
    x: Crypto, ids: seq<InputAccountIdentity>, s: Exec, program: ProgramId, caller: CallerData, seeds: seq<PdaSeed>,
    pres: seq<AccountWithMetadata>, posts: seq<AccountPostState>, n: nat)
    requires n <= |pres| && n <= |posts|
    requires Invariant(x, ids, s) && SyncUpTo(x, ids, s, program, caller, seeds, pres, posts, n).Some?
    ensures var t := SyncUpTo(x, ids, s, program, caller, seeds, pres, posts, n).value;
            Threaded(t) && Gain(t) == Gain(s) + Total(PostBalances(posts)[..n]) - Total(PreBalances(pres)[..n])
  {
    hide SyncOne, Gain, Threaded;
    if n > 0 {
      SyncGains(x, ids, s, program, caller, seeds, pres, posts, n - 1);
      SyncKeepsInvariant(x, ids, s, program, caller, seeds, pres, posts, n - 1);
      var before := SyncUpTo(x, ids, s, program, caller, seeds, pres, posts, n - 1).value;
      var t := SyncUpTo(x, ids, s, program, caller, seeds, pres, posts, n).value;
      SyncOneKeepsInvariant(x, ids, before, program, caller, seeds, pres[n - 1], posts[n - 1]);
      TouchGain(before, t, pres[n - 1], Settled(program, posts[n - 1]));
      assert PostBalances(posts)[..n] == PostBalances(posts)[..n - 1] + [posts[n - 1].account.balance];
      assert PreBalances(pres)[..n] == PreBalances(pres)[..n - 1] + [pres[n - 1].account.balance];
      TotalSnoc(PostBalances(posts)[..n - 1], posts[n - 1].account.balance);
      TotalSnoc(PreBalances(pres)[..n - 1], pres[n - 1].account.balance);
    }
  }

  /** After the outputs `done`: the invariant holds, the state records their touches, and the
      accounts together hold what they held at first sight. */
  ghost predicate Accounted(x: Crypto, ids: seq<InputAccountIdentity>, s: Exec, done: seq<ProgramOutput>)
  {
    Invariant(x, ids, s) && Records(s, Touches(done)) && Gain(s) == 0
  }

  /** A processed call, being well behaved, gains nothing. */
  lemma {:induction false} ProcessAccounts(
    x: Crypto, ids: seq<InputAccountIdentity>, s: Exec, frame: Frame, out: ProgramOutput, done: seq<ProgramOutput>)
    requires Accounted(x, ids, s, done) && Process(x, ids, s, frame, out).Some?
    ensures var t := Process(x, ids, s, frame, out).value;
            Accounted(x, ids, t, done + [out]) && s.preStates <= t.preStates
  {
    hide SyncUpTo, Records, Gain;
    var n := |out.preStates|;
    SyncKeepsInvariant(x, ids, s, frame.call.programId, frame.caller, frame.call.pdaSeeds, out.preStates, out.postStates, n);
    SyncRecords(x, ids, s, frame.call.programId, frame.caller, frame.call.pdaSeeds, out.preStates, out.postStates, n, Touches(done));
    SyncGains(x, ids, s, frame.call.programId, frame.caller, frame.call.pdaSeeds, out.preStates, out.postStates, n);
    assert (done + [out])[..|done|] == done;
    assert PostBalances(out.postStates)[..n] == PostBalances(out.postStates);
    assert PreBalances(out.preStates)[..n] == PreBalances(out.preStates);
  }

  /** State threading and conservation over a whole worklist run. */
  lemma {:induction false} WorkAccounts(
    x: Crypto, ids: seq<InputAccountIdentity>, s: Exec, stack: seq<Frame>, outputs: seq<ProgramOutput>, counter: nat, done: seq<ProgramOutput>)
    requires Accounted(x, ids, s, done) && Work(x, ids, s, stack, outputs, counter).Some?
    ensures var t := Work(x, ids, s, stack, outputs, counter).value;
            Accounted(x, ids, t, done + outputs) && s.preStates <= t.preStates
    decreases |outputs|
  {
    hide Process, Accounted;
    if stack == [] {
      assert done + outputs == done;
    } else {
      ProcessAccounts(x, ids, s, stack[0], outputs[0], done);
      var t := Process(x, ids, s, stack[0], outputs[0]).value;
      WorkAccounts(x, ids, t, ChildFrames(stack[0], outputs[0]) + stack[1..], outputs[1..], counter + 1, done + [outputs[0]]);
      assert (done + [outputs[0]]) + outputs[1..] == done + outputs;
    }
  }

  lemma {:induction false} EmptyAccounted(x: Crypto, ids: seq<InputAccountIdentity>)
    ensures Accounted(x, ids, EMPTY_EXEC, [])
  {
    EmptyInvariant(x, ids);
    assert Total([]) == 0;
  }
}
