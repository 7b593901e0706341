/** What programs can do to accounts over a whole accepted transaction: only what their owners do. */
module Ownership {
  import opened Prelude
  import opened LedgerState
  import opened Programs
  import opened Execution
  import opened CallTrees
  import opened Threading
  import opened Derivation

  // ---- one touch ----

  /** What a program may leave of an account: the balance and data it says, under the same nonce, and
      under the same owner unless it claims the account, which it then owns; only the default account is
      claimed; the balance falls and the data of a used account changes only in the hands of its owner.
      An account without an owner is the default account. */
  ghost predicate Permitted(t: Touch)
  {
    var a, z := t.pre.account, Settled(t.program, t.post);
    && z == Account(if t.post.claim.Some? then t.program else a.programOwner, t.post.account.balance, t.post.account.data, a.nonce)
    && (t.post.claim.Some? ==> a == DEFAULT_ACCOUNT)
    && (z.balance < a.balance ==> a.programOwner == t.program)
    && (z.data != a.data ==> a == DEFAULT_ACCOUNT || a.programOwner == t.program)
    && (a.programOwner == DEFAULT_PROGRAM_OWNER ==> a == DEFAULT_ACCOUNT)
  }

  lemma {:induction false} BehavedIsPermitted(program: ProgramId, pre: AccountWithMetadata, post: AccountPostState)
    requires Behaves(pre.account, post.account, program)
    requires post.claim.Some? ==> post.account.programOwner == DEFAULT_PROGRAM_OWNER
    ensures Permitted(Touch(program, pre, post))
  {
  }

  /** Only an account without an owner is claimed. */
  lemma {:induction false} SyncedClaims(
    x: Crypto, ids: seq<InputAccountIdentity>, s: Exec, program: ProgramId, caller: CallerData, seeds: seq<PdaSeed>,
    pres: seq<AccountWithMetadata>, posts: seq<AccountPostState>, n: nat, i: nat)
    requires i < n <= |pres| && n <= |posts| && SyncUpTo(x, ids, s, program, caller, seeds, pres, posts, n).Some?
    requires posts[i].claim.Some?
    ensures posts[i].account.programOwner == DEFAULT_PROGRAM_OWNER
  {
    hide Admit;
    if i < n - 1 {
      SyncedClaims(x, ids, s, program, caller, seeds, pres, posts, n - 1, i);
    }
  }

  /** The output is a proven run of its program, and well behaved. */
  ghost predicate Proven(x: Crypto, out: ProgramOutput)
  {
    x.verify(out.selfProgramId, out) && WellBehaved(out.preStates, out.postStates, out.selfProgramId)
  }

  ghost predicate AllPermitted(ts: seq<Touch>)
  {
    forall i :: 0 <= i < |ts| ==> Permitted(ts[i])
  }

  lemma {:induction false} ProcessPermits(
    x: Crypto, ids: seq<InputAccountIdentity>, s: Exec, frame: Frame, out: ProgramOutput)
    requires Process(x, ids, s, frame, out).Some?
    ensures Proven(x, out) && |out.preStates| == |out.postStates|
    ensures AllPermitted(TouchesUpTo(out.selfProgramId, out.preStates, out.postStates, |out.preStates|))
  {
    WellBehavedIff(out.preStates, out.postStates, out.selfProgramId);
    hide SyncUpTo, ExecutionVerdict, Permitted;
    forall i | 0 <= i < |out.preStates|
      ensures Permitted(Touch(out.selfProgramId, out.preStates[i], out.postStates[i]))
    {
      if out.postStates[i].claim.Some? {
        SyncedClaims(x, ids, s, frame.call.programId, frame.caller, frame.call.pdaSeeds,
                     out.preStates, out.postStates, |out.preStates|, i);
      }
      BehavedIsPermitted(out.selfProgramId, out.preStates[i], out.postStates[i]);
    }
  }

  lemma {:induction false} WorkPermits(
    x: Crypto, ids: seq<InputAccountIdentity>, s: Exec, stack: seq<Frame>, outputs: seq<ProgramOutput>, counter: nat,
    done: seq<ProgramOutput>)
    requires Work(x, ids, s, stack, outputs, counter).Some? && AllPermitted(Touches(done))
    ensures forall out :: out in outputs ==> Proven(x, out)
    ensures AllPermitted(Touches(done + outputs))
    decreases |outputs|
  {
    hide Process, Proven, Permitted, Touches;
    if stack == [] {
      assert done + outputs == done;
    } else {
      var out := outputs[0];
      ProcessPermits(x, ids, s, stack[0], out);
      TouchesSnoc(done, out);
      var t := Process(x, ids, s, stack[0], out).value;
      WorkPermits(x, ids, t, ChildFrames(stack[0], out) + stack[1..], outputs[1..], counter + 1, done + [out]);
      assert (done + [out]) + outputs[1..] == done + outputs;
    }
  }

  lemma {:induction false} TouchesSnoc(done: seq<ProgramOutput>, out: ProgramOutput)
    ensures Touches(done + [out])
            == Touches(done) + TouchesUpTo(out.selfProgramId, out.preStates, out.postStates, Min(|out.preStates|, |out.postStates|))
  {
    assert (done + [out])[..|done|] == done;
  }

  /** Every call of an accepted transaction is a proven, well-behaved run of its program, and everything
      it does to an account is permitted. */
  lemma {:induction false} AcceptedTouches(
    x: Crypto, ids: seq<InputAccountIdentity>, program: ProgramId, outputs: seq<ProgramOutput>)
    requires Derive(x, ids, program, outputs).Some?
    ensures forall out :: out in outputs ==> Proven(x, out)
    ensures AllPermitted(Touches(outputs))
  {
    WorkPermits(x, ids, EMPTY_EXEC, [RootFrame(program, outputs[0])], outputs, 0, []);
    assert [] + outputs == outputs;
  }

  // ---- a whole transaction ----

  ghost predicate TouchedBy(ts: seq<Touch>, id: AccountId, program: ProgramId)
  {
    exists i :: 0 <= i < |ts| && ts[i].pre.accountId == id && ts[i].program == program
  }

  ghost predicate ClaimedBy(ts: seq<Touch>, id: AccountId, program: ProgramId)
  {
    exists i :: 0 <= i < |ts| && ts[i].pre.accountId == id && ts[i].program == program && ts[i].post.claim.Some?
  }

  /** What became of account `id`, found as `a` and left as `z`: it belongs to another program exactly if
      that program claimed it, the default account, and is governed by its owner otherwise. */
  ghost predicate Governed(ts: seq<Touch>, id: AccountId, a: Account, z: Account)
  {
    && z.nonce == a.nonce
    && (z.programOwner != a.programOwner ==> a == DEFAULT_ACCOUNT && ClaimedBy(ts, id, z.programOwner))
    && (forall p :: p != DEFAULT_PROGRAM_OWNER && ClaimedBy(ts, id, p) ==> a == DEFAULT_ACCOUNT && z.programOwner == p)
    && (a != DEFAULT_ACCOUNT && (z.balance < a.balance || z.data != a.data) ==> TouchedBy(ts, id, a.programOwner))
    && (a.programOwner == DEFAULT_PROGRAM_OWNER ==> a == DEFAULT_ACCOUNT)
  }

  lemma {:induction false} TouchedSnoc(ts: seq<Touch>, t: Touch, id: AccountId, program: ProgramId)
    ensures TouchedBy(ts + [t], id, program) <==> TouchedBy(ts, id, program) || (t.pre.accountId == id && t.program == program)
    ensures ClaimedBy(ts + [t], id, program)
            <==> ClaimedBy(ts, id, program) || (t.pre.accountId == id && t.program == program && t.post.claim.Some?)
  {
    var all := ts + [t];
    assert all[|ts|] == t;
    forall i | 0 <= i < |ts|
      ensures all[i] == ts[i]
    {
    }
    if i :| 0 <= i < |ts| && ts[i].pre.accountId == id && ts[i].program == program {
      assert all[i] == ts[i];
    }
    if i :| 0 <= i < |ts| && ts[i].pre.accountId == id && ts[i].program == program && ts[i].post.claim.Some? {
      assert all[i] == ts[i];
    }
    if i :| 0 <= i < |all| && all[i].pre.accountId == id && all[i].program == program {
      assert i < |ts| ==> ts[i] == all[i];
    }
    if i :| 0 <= i < |all| && all[i].pre.accountId == id && all[i].program == program && all[i].post.claim.Some? {
      assert i < |ts| ==> ts[i] == all[i];
    }
  }

  lemma {:induction false} GovernedStep(ts: seq<Touch>, t: Touch, id: AccountId, a: Account, z: Account)
    requires Governed(ts, id, a, z) && Permitted(t)
    ensures t.pre.accountId != id ==> Governed(ts + [t], id, a, z)
    ensures t.pre.accountId == id && t.pre.account == z ==> Governed(ts + [t], id, a, Settled(t.program, t.post))
  {
    hide TouchedBy, ClaimedBy;
    forall p
      ensures TouchedBy(ts + [t], id, p) <==> TouchedBy(ts, id, p) || (t.pre.accountId == id && t.program == p)
      ensures ClaimedBy(ts + [t], id, p) <==> ClaimedBy(ts, id, p) || (t.pre.accountId == id && t.program == p && t.post.claim.Some?)
    {
      TouchedSnoc(ts, t, id, p);
    }
  }

  /** The first touch of an account. */
  lemma {:induction false} GovernedStart(ts: seq<Touch>, t: Touch)
    requires Permitted(t) && t.pre.accountId !in LastPosts(ts)
    ensures Governed(ts + [t], t.pre.accountId, t.pre.account, Settled(t.program, t.post))
  {
    var id := t.pre.accountId;
    forall p
      ensures TouchedBy(ts + [t], id, p) <==> TouchedBy(ts, id, p) || t.program == p
      ensures ClaimedBy(ts + [t], id, p) <==> t.program == p && t.post.claim.Some?
    {
      TouchedSnoc(ts, t, id, p);
      UntouchedIsUnclaimed(ts, id, p);
    }
    hide TouchedBy, ClaimedBy, LastPosts;
  }

  lemma {:induction false} UntouchedIsUnclaimed(ts: seq<Touch>, id: AccountId, program: ProgramId)
    requires id !in LastPosts(ts)
    ensures !TouchedBy(ts, id, program) && !ClaimedBy(ts, id, program)
    decreases |ts|
  {
    if ts != [] {
      var before, t := ts[..|ts| - 1], ts[|ts| - 1];
      assert ts == before + [t];
      UntouchedIsUnclaimed(before, id, program);
      TouchedSnoc(before, t, id, program);
    }
  }

  /** Over any consistent, permitted touches every account is governed. */
  lemma {:induction false} TouchesGovern(ts: seq<Touch>, i: nat)
    requires Consistent(ts) && AllPermitted(ts) && i < |FirstPres(ts)|
    ensures var e := FirstPres(ts)[i];
            e.id in LastPosts(ts) && Governed(ts, e.id, e.account, LastPosts(ts)[e.id])
    decreases |ts|
  {
    var before, t := ts[..|ts| - 1], ts[|ts| - 1];
    assert ts == before + [t];
    hide Permitted, Governed;
    assert Permitted(t) && AllPermitted(before);
    if i < |FirstPres(before)| {
      TouchesGovern(before, i);
      var e := FirstPres(before)[i];
      assert FirstPres(ts)[i] == e;
      GovernedStep(before, t, e.id, e.account, LastPosts(before)[e.id]);
    } else {
      GovernedStart(before, t);
    }
  }

  /** Over a whole accepted transaction an account keeps its nonce; a used account keeps its owner, and
      its balance falls or its data changes only if its owner ran and touched it; and an account without
      an owner is the default account, and ends unchanged or in the hands of a program that claimed it. */
  lemma {:induction false} OwnersGovern(
    x: Crypto, ids: seq<InputAccountIdentity>, program: ProgramId, outputs: seq<ProgramOutput>, i: nat)
    requires Derive(x, ids, program, outputs).Some? && i < |Derive(x, ids, program, outputs).value.exec.preStates|
    ensures var s, ts := Derive(x, ids, program, outputs).value.exec, Touches(outputs);
            var id, a := s.preStates[i].accountId, s.preStates[i].account;
            && id in s.postStates
            && Governed(ts, id, a, s.postStates[id])
            && (a.programOwner == DEFAULT_PROGRAM_OWNER && s.postStates[id] != a ==>
                  s.postStates[id].programOwner != DEFAULT_PROGRAM_OWNER && ClaimedBy(ts, id, s.postStates[id].programOwner))
  {
    AcceptedThreading(x, ids, program, outputs);
    AcceptedTouches(x, ids, program, outputs);
    var s, ts := Derive(x, ids, program, outputs).value.exec, Touches(outputs);
    assert ModifiedIsClaimed(s, i);
    hide Derive, Touches, Permitted, ClaimedBy, TouchedBy;
    assert EntriesOf(s.preStates)[i] == FirstPres(ts)[i];
    TouchesGovern(ts, i);
  }

  // ---- what else acceptance checks ----

  /** The call was made: it is the top-level call, which nobody called, or one of the calls its parent
      asked for, and the output is a proven run of exactly that program on that instruction for that caller. */
  ghost predicate AsMade(x: Crypto, program: ProgramId, v: Visit)
  {
    var out, call := v.self.output, v.self.frame.call;
    && x.verify(call.programId, out) && out.selfProgramId == call.programId && out.instructionData == call.instructionData
    && if v.ancestors == [] then call.programId == program && out.callerProgramId.None?
       else
         var parent := v.ancestors[|v.ancestors| - 1].output;
         call in parent.chainedCalls && out.callerProgramId == Some(parent.selfProgramId)
  }

  /** Pending calls were asked for by the last of `ancestors`. */
  ghost predicate AskedFor(program: ProgramId, frames: seq<Frame>, ancestors: seq<Executed>)
  {
    forall i :: 0 <= i < |frames| ==>
      if ancestors == [] then frames[i].call.programId == program && frames[i].caller.programId.None?
      else
        var parent := ancestors[|ancestors| - 1].output;
        frames[i].call in parent.chainedCalls && frames[i].caller.programId == Some(parent.selfProgramId)
  }

  lemma {:induction false} CallsAreAsMade(
    x: Crypto, program: ProgramId, f: Calls, frames: seq<Frame>, ancestors: seq<Executed>, v: Visit)
    requires Matches(x, f, frames) && AskedFor(program, frames, ancestors) && v in Visits(f, frames, ancestors)
    ensures AsMade(x, program, v)
    decreases f
  {
    hide ExecutionVerdict;
    match f
    case Call(out, made, next) =>
      var self := Executed(frames[0], out);
      assert (ancestors + [self])[|ancestors|] == self;
      if v in Visits(made, ChildFrames(frames[0], out), ancestors + [self]) {
        CallsAreAsMade(x, program, made, ChildFrames(frames[0], out), ancestors + [self], v);
      } else if v in Visits(next, frames[1..], ancestors) {
        CallsAreAsMade(x, program, next, frames[1..], ancestors, v);
      }
  }

  /** Every call of an accepted transaction was made, and ran as made. */
  lemma {:induction false} AcceptedCallsAreAsMade(
    x: Crypto, program: ProgramId, outputs: seq<ProgramOutput>, f: Calls, v: Visit)
    requires IsCallTree(x, program, outputs, f) && v in Visits(f, [RootFrame(program, outputs[0])], [])
    ensures AsMade(x, program, v)
  {
    hide Matches, Visits;
    CallsAreAsMade(x, program, f, [RootFrame(program, outputs[0])], [], v);
  }

  /** A privacy-preserving transaction is valid in a block exactly where every one of its calls is, in
      height and in time. */
  lemma {:induction false} AcceptedWindows(
    x: Crypto, ids: seq<InputAccountIdentity>, program: ProgramId, outputs: seq<ProgramOutput>, v: nat)
    requires Derive(x, ids, program, outputs).Some?
    ensures var d := Derive(x, ids, program, outputs).value;
            && (ValidFor(d.blockWindow, v) <==> forall i :: 0 <= i < |outputs| ==> ValidFor(outputs[i].blockWindow, v))
            && (ValidFor(d.timestampWindow, v) <==> forall i :: 0 <= i < |outputs| ==> ValidFor(outputs[i].timestampWindow, v))
  {
    hide Work;
    CommonWindowExact(BlockWindows(outputs));
    CommonWindowExact(TimestampWindows(outputs));
    WindowIsIntersection(BlockWindows(outputs), v);
    WindowIsIntersection(TimestampWindows(outputs), v);
    hide CommonWindow, LatestStart, EarliestEnd;
    assert forall i :: 0 <= i < |outputs| ==> BlockWindows(outputs)[i] == outputs[i].blockWindow;
    assert forall i :: 0 <= i < |outputs| ==> TimestampWindows(outputs)[i] == outputs[i].timestampWindow;
  }
}
