/** Every `(program, seed)` pair stands for one account throughout a transaction. */
module Bindings {
  import opened Prelude
  import opened LedgerState
  import opened Programs
  import opened Execution
  import opened ExecutionInvariants
  import opened CallTrees
  import opened Threading
  import opened Provenance

  /** Handling account `pre` of a call resolves binding `b` to it: by claiming it, or as the seed
      that authorizes it, tried publicly first and then under the keys for its place. */
  ghost predicate Resolves(
    x: Crypto, ids: seq<InputAccountIdentity>, journal: seq<AccountWithMetadata>, frame: Frame,
    pre: AccountWithMetadata, post: AccountPostState, b: Binding)
  {
    var public := MatchPublic(x, frame.caller, frame.call.pdaSeeds, pre.accountId);
    var pos := PositionIn(journal, pre.accountId);
    || (post.claim == Some(PdaClaim(b.seed)) && frame.call.programId == b.program)
    || public == Some(b)
    || (public.None? && pos.Some?
        && MatchPrivate(x, PdaKeysAt(x, ids, pos.value), frame.caller, frame.call.pdaSeeds, pre.accountId) == Some(b))
  }

  ghost predicate FamilyGrows(s: Exec, t: Exec)
  {
    forall b :: b in s.family ==> b in t.family && t.family[b] == s.family[b]
  }

  lemma {:induction false} BindsAtGrows(
    x: Crypto, ids: seq<InputAccountIdentity>, s: Exec, t: Exec, pos: nat, id: AccountId)
    requires BindsAt(x, ids, s, t, pos, id)
    ensures FamilyGrows(s, t)
  {
  }

  /** Whichever seed grants account `id`, at place `pos`, stands for it. */
  ghost predicate GrantRecorded(
    x: Crypto, ids: seq<InputAccountIdentity>, caller: CallerData, seeds: seq<PdaSeed>, id: AccountId, pos: nat, t: Exec)
  {
    var public := MatchPublic(x, caller, seeds, id);
    forall b :: public == Some(b) || (public.None? && MatchPrivate(x, PdaKeysAt(x, ids, pos), caller, seeds, id) == Some(b))
                ==> b in t.family && t.family[b] == id
  }

  lemma {:induction false} CheckAuthorizationResolves(
    x: Crypto, ids: seq<InputAccountIdentity>, s: Exec, caller: CallerData, seeds: seq<PdaSeed>,
    id: AccountId, pos: nat, isAuthorized: bool)
    requires CheckAuthorization(x, ids, s, caller, seeds, id, pos, isAuthorized).Some?
    ensures var t := CheckAuthorization(x, ids, s, caller, seeds, id, pos, isAuthorized).value;
            FamilyGrows(s, t) && GrantRecorded(x, ids, caller, seeds, id, pos, t)
  {
    CheckAuthorizationBinds(x, ids, s, caller, seeds, id, pos, isAuthorized);
    BindsAtGrows(x, ids, s, CheckAuthorization(x, ids, s, caller, seeds, id, pos, isAuthorized).value, pos, id);
    hide MatchPublic, MatchPrivate, BindsAt, FamilyGrows;
  }

  lemma {:induction false} FirstSightResolves(
    x: Crypto, ids: seq<InputAccountIdentity>, s: Exec, caller: CallerData, seeds: seq<PdaSeed>, pre: AccountWithMetadata)
    requires FirstSight(x, ids, s, caller, seeds, pre).Some?
    ensures var t := FirstSight(x, ids, s, caller, seeds, pre).value;
            FamilyGrows(s, t) && GrantRecorded(x, ids, caller, seeds, pre.accountId, |s.preStates|, t)
  {
    hide BindsAt, MatchPublic, MatchPrivate, CheckAuthorization, BindExternal;
    var id, pos := pre.accountId, |s.preStates|;
    BindExternalBinds(x, ids, s, id, pos);
    var e := BindExternal(x, ids, s, id, pos).value;
    BindsAtGrows(x, ids, s, e, pos, id);
    if PdaKeysAt(x, ids, pos).Some? {
      CheckAuthorizationResolves(x, ids, e, caller, seeds, id, pos, pre.isAuthorized);
    } else {
      NoKeysNoMatch(x, caller, seeds, id);
    }
  }

  /** Admission extends the family and records the seed that authorized the account. */
  lemma {:induction false} AdmitResolves(
    x: Crypto, ids: seq<InputAccountIdentity>, s: Exec, caller: CallerData, seeds: seq<PdaSeed>,
    pre: AccountWithMetadata, pos: nat)
    requires Invariant(x, ids, s) && Admit(x, ids, s, caller, seeds, pre).Some?
    requires PositionIn(Admit(x, ids, s, caller, seeds, pre).value.preStates, pre.accountId) == Some(pos)
    ensures FamilyGrows(s, Admit(x, ids, s, caller, seeds, pre).value)
    ensures GrantRecorded(x, ids, caller, seeds, pre.accountId, pos, Admit(x, ids, s, caller, seeds, pre).value)
  {
    AdmitJournals(x, ids, s, caller, seeds, pre);
    KnownIffJournaled(s, pre.accountId);
    hide Invariant, Threaded, CheckAuthorization, FirstSight, FamilyGrows, GrantRecorded;
    if pre.accountId in s.postStates {
      CheckAuthorizationResolves(x, ids, s, caller, seeds, pre.accountId, pos, pre.isAuthorized);
    } else {
      var t := Admit(x, ids, s, caller, seeds, pre).value;
      PositionOfLast(s.preStates, t.preStates[|s.preStates|]);
      FirstSightResolves(x, ids, s, caller, seeds, pre);
    }
  }

  lemma {:induction false} ClaimResolves(
    x: Crypto, ids: seq<InputAccountIdentity>, s: Exec, program: ProgramId, pre: AccountWithMetadata,
    post: AccountPostState)
    requires CheckClaim(x, ids, s, program, pre, post).Some? && post.claim.Some? && post.claim.value.PdaClaim?
    ensures var t, b := CheckClaim(x, ids, s, program, pre, post).value, Binding(program, post.claim.value.seed);
            b in t.family && t.family[b] == pre.accountId
  {
    hide PositionIn, PdaKeysAt;
  }

  /** One pair of a call records every binding it resolves, and no recorded binding ever changes. */
  lemma {:induction false} SyncOneResolves(
    x: Crypto, ids: seq<InputAccountIdentity>, s: Exec, frame: Frame, pre: AccountWithMetadata,
    post: AccountPostState)
    requires Invariant(x, ids, s) && SyncOne(x, ids, s, frame.call.programId, frame.caller, frame.call.pdaSeeds, pre, post).Some?
    ensures var t := SyncOne(x, ids, s, frame.call.programId, frame.caller, frame.call.pdaSeeds, pre, post).value;
            && FamilyGrows(s, t)
            && forall b :: Resolves(x, ids, t.preStates, frame, pre, post, b) ==> b in t.family && t.family[b] == pre.accountId
  {
    hide Invariant, Admit, CheckClaim, BindsAt, MatchPublic, MatchPrivate, PositionIn;
    var program, seeds := frame.call.programId, frame.call.pdaSeeds;
    AdmitKeepsGlobals(x, ids, s, frame.caller, seeds, pre);
    var a := Admit(x, ids, s, frame.caller, seeds, pre).value;
    var pos := PositionIn(a.preStates, pre.accountId).value;
    AdmitResolves(x, ids, s, frame.caller, seeds, pre, pos);
    CheckClaimBinds(x, ids, a, program, pre, post, pos);
    var u := CheckClaim(x, ids, a, program, pre, post).value;
    BindsAtGrows(x, ids, a, u, pos, pre.accountId);
    BindsAtKeepsJournal(x, ids, a, u, pos, pre.accountId);
    if post.claim.Some? && post.claim.value.PdaClaim? {
      ClaimResolves(x, ids, a, program, pre, post);
    }
  }

  lemma {:induction false} SyncResolves(
    x: Crypto, ids: seq<InputAccountIdentity>, s: Exec, frame: Frame, pres: seq<AccountWithMetadata>, posts: seq<AccountPostState>, n: nat)
    requires n <= |pres| && n <= |posts|
    requires Invariant(x, ids, s)
    requires SyncUpTo(x, ids, s, frame.call.programId, frame.caller, frame.call.pdaSeeds, pres, posts, n).Some?
    ensures var t := SyncUpTo(x, ids, s, frame.call.programId, frame.caller, frame.call.pdaSeeds, pres, posts, n).value;
            && FamilyGrows(s, t)
            && forall i, b :: 0 <= i < n && Resolves(x, ids, t.preStates, frame, pres[i], posts[i], b) ==>
                 b in t.family && t.family[b] == pres[i].accountId
  {
    hide SyncOne, Invariant;
    if n > 0 {
      var program, seeds := frame.call.programId, frame.call.pdaSeeds;
      SyncResolves(x, ids, s, frame, pres, posts, n - 1);
      SyncKeepsInvariant(x, ids, s, program, frame.caller, seeds, pres, posts, n - 1);
      var before := SyncUpTo(x, ids, s, program, frame.caller, seeds, pres, posts, n - 1).value;
      var t := SyncUpTo(x, ids, s, program, frame.caller, seeds, pres, posts, n).value;
      SyncOneResolves(x, ids, before, frame, pres[n - 1], posts[n - 1]);
      SyncOneKeepsInvariant(x, ids, before, program, frame.caller, seeds, pres[n - 1], posts[n - 1]);
      forall i, b | 0 <= i < n - 1 && Resolves(x, ids, t.preStates, frame, pres[i], posts[i], b)
        ensures b in t.family && t.family[b] == pres[i].accountId
      {
        SyncJournals(x, ids, s, program, frame.caller, seeds, pres, posts, n - 1, i);
        ResolvesEarlier(x, ids, before.preStates, t.preStates, frame, pres[i], posts[i], b);
      }
    }
  }

  /** Every account a call handled is in the journal. */
  lemma {:induction false} SyncJournals(
    x: Crypto, ids: seq<InputAccountIdentity>, s: Exec, program: ProgramId, caller: CallerData, seeds: seq<PdaSeed>,
    pres: seq<AccountWithMetadata>, posts: seq<AccountPostState>, n: nat, i: nat)
    requires n <= |pres| && n <= |posts| && i < n
    requires Invariant(x, ids, s) && SyncUpTo(x, ids, s, program, caller, seeds, pres, posts, n).Some?
    ensures PositionIn(SyncUpTo(x, ids, s, program, caller, seeds, pres, posts, n).value.preStates, pres[i].accountId).Some?
  {
    hide SyncOne, PositionsBound, FamilySound;
    var before := SyncUpTo(x, ids, s, program, caller, seeds, pres, posts, n - 1).value;
    var t := SyncUpTo(x, ids, s, program, caller, seeds, pres, posts, n).value;
    SyncKeepsInvariant(x, ids, s, program, caller, seeds, pres, posts, n - 1);
    SyncOneKeepsInvariant(x, ids, before, program, caller, seeds, pres[n - 1], posts[n - 1]);
    if i < n - 1 {
      SyncJournals(x, ids, s, program, caller, seeds, pres, posts, n - 1, i);
      PositionStable(before.preStates, t.preStates, pres[i].accountId);
    } else {
      KnownIffJournaled(t, pres[i].accountId);
    }
  }

  lemma {:induction false} ResolvesEarlier(
    x: Crypto, ids: seq<InputAccountIdentity>, journal: seq<AccountWithMetadata>, more: seq<AccountWithMetadata>, frame: Frame,
    pre: AccountWithMetadata, post: AccountPostState, b: Binding)
    requires journal <= more && PositionIn(journal, pre.accountId).Some?
    ensures Resolves(x, ids, more, frame, pre, post, b) <==> Resolves(x, ids, journal, frame, pre, post, b)
  {
    PositionStable(journal, more, pre.accountId);
  }

  lemma {:induction false} WorkGrows(
    x: Crypto, ids: seq<InputAccountIdentity>, s: Exec, stack: seq<Frame>, outputs: seq<ProgramOutput>,
    counter: nat)
    requires Invariant(x, ids, s) && Work(x, ids, s, stack, outputs, counter).Some?
    ensures var t := Work(x, ids, s, stack, outputs, counter).value;
            Invariant(x, ids, t) && s.preStates <= t.preStates && FamilyGrows(s, t)
    decreases |outputs|
  {
    hide Invariant, SyncUpTo;
    if stack != [] {
      ProcessGrows(x, ids, s, stack[0], outputs[0]);
      SyncResolves(x, ids, s, stack[0], outputs[0].preStates, outputs[0].postStates, |outputs[0].preStates|);
      var t := Process(x, ids, s, stack[0], outputs[0]).value;
      WorkGrows(x, ids, t, ChildFrames(stack[0], outputs[0]) + stack[1..], outputs[1..], counter + 1);
    }
  }

  /** What a processed call resolves stays recorded in every later state. */
  lemma {:induction false} ProcessResolves(
    x: Crypto, ids: seq<InputAccountIdentity>, s: Exec, frame: Frame, out: ProgramOutput, u: Exec, i: nat,
    b: Binding)
    requires Invariant(x, ids, s) && Process(x, ids, s, frame, out).Some?
    requires Process(x, ids, s, frame, out).value.preStates <= u.preStates && FamilyGrows(Process(x, ids, s, frame, out).value, u)
    requires i < |out.preStates| && i < |out.postStates|
    requires Resolves(x, ids, u.preStates, frame, out.preStates[i], out.postStates[i], b)
    ensures b in u.family && u.family[b] == out.preStates[i].accountId
  {
    hide Invariant, SyncUpTo, Resolves;
    var n, t := |out.preStates|, Process(x, ids, s, frame, out).value;
    SyncResolves(x, ids, s, frame, out.preStates, out.postStates, n);
    SyncJournals(x, ids, s, frame.call.programId, frame.caller, frame.call.pdaSeeds, out.preStates, out.postStates, n, i);
    ResolvesEarlier(x, ids, t.preStates, u.preStates, frame, out.preStates[i], out.postStates[i], b);
  }

  /** Every binding resolved anywhere in the transaction is recorded for its account. */
  lemma {:induction false} WorkResolves(
    x: Crypto, ids: seq<InputAccountIdentity>, s: Exec, stack: seq<Frame>, outputs: seq<ProgramOutput>, counter: nat, e: Executed, i: nat, b: Binding)
    requires Invariant(x, ids, s) && Work(x, ids, s, stack, outputs, counter).Some?
    requires e in Popped(stack, outputs) && i < |e.output.preStates| && i < |e.output.postStates|
    requires Resolves(x, ids, Work(x, ids, s, stack, outputs, counter).value.preStates, e.frame, e.output.preStates[i], e.output.postStates[i], b)
    ensures var t := Work(x, ids, s, stack, outputs, counter).value;
            b in t.family && t.family[b] == e.output.preStates[i].accountId
    decreases |outputs|
  {
    hide Invariant, Process, Resolves;
    var frame, out := stack[0], outputs[0];
    var rest := ChildFrames(frame, out) + stack[1..];
    ProcessGrows(x, ids, s, frame, out);
    var t := Process(x, ids, s, frame, out).value;
    if e in Popped(rest, outputs[1..]) {
      WorkResolves(x, ids, t, rest, outputs[1..], counter + 1, e, i, b);
    } else {
      WorkGrows(x, ids, t, rest, outputs[1..], counter + 1);
      ProcessResolves(x, ids, s, frame, out, Work(x, ids, t, rest, outputs[1..], counter + 1).value, i, b);
    }
  }

  /** Some call resolves `b` to `id` by a claim or as an authorizing seed, or the witness for `id`
      names it. */
  ghost predicate ResolvedTo(
    x: Crypto, ids: seq<InputAccountIdentity>, journal: seq<AccountWithMetadata>, calls: seq<Executed>, b: Binding, id: AccountId)
  {
    || (exists e, i :: && e in calls && 0 <= i < |e.output.preStates| && i < |e.output.postStates|
                       && e.output.preStates[i].accountId == id
                       && Resolves(x, ids, journal, e.frame, e.output.preStates[i], e.output.postStates[i], b))
    || exists pos: nat :: pos < |journal| && ExternalBinding(ids, pos) == Some(b) && journal[pos].accountId == id
  }

  /** Whatever resolves a binding has it recorded for the account. */
  lemma {:induction false} ResolvedIsRecorded(
    x: Crypto, ids: seq<InputAccountIdentity>, stack: seq<Frame>, outputs: seq<ProgramOutput>, b: Binding, id: AccountId)
    requires Work(x, ids, EMPTY_EXEC, stack, outputs, 0).Some?
    requires ResolvedTo(x, ids, Work(x, ids, EMPTY_EXEC, stack, outputs, 0).value.preStates, Popped(stack, outputs), b, id)
    ensures var t := Work(x, ids, EMPTY_EXEC, stack, outputs, 0).value;
            b in t.family && t.family[b] == id
  {
    hide Work, Resolves, Popped;
    EmptyInvariant(x, ids);
    var t := Work(x, ids, EMPTY_EXEC, stack, outputs, 0).value;
    WorkGrows(x, ids, EMPTY_EXEC, stack, outputs, 0);
    if pos: nat :| pos < |t.preStates| && ExternalBinding(ids, pos) == Some(b) && t.preStates[pos].accountId == id {
      assert PositionBound(x, ids, t, pos, t.boundPositions[pos]);
    } else {
      var e, i :| && e in Popped(stack, outputs) && 0 <= i < |e.output.preStates| && i < |e.output.postStates|
                  && e.output.preStates[i].accountId == id
                  && Resolves(x, ids, t.preStates, e.frame, e.output.preStates[i], e.output.postStates[i], b);
      WorkResolves(x, ids, EMPTY_EXEC, stack, outputs, 0, e, i, b);
    }
  }

  /** One account per seed: whatever resolves a program and seed in an accepted transaction, a claim,
      a caller's seed or a witness, resolves it to the same account. */
  lemma {:induction false} OneAccountPerSeed(
    x: Crypto, ids: seq<InputAccountIdentity>, stack: seq<Frame>, outputs: seq<ProgramOutput>, b: Binding, id: AccountId, id': AccountId)
    requires Work(x, ids, EMPTY_EXEC, stack, outputs, 0).Some?
    requires ResolvedTo(x, ids, Work(x, ids, EMPTY_EXEC, stack, outputs, 0).value.preStates, Popped(stack, outputs), b, id)
    requires ResolvedTo(x, ids, Work(x, ids, EMPTY_EXEC, stack, outputs, 0).value.preStates, Popped(stack, outputs), b, id')
    ensures id == id'
  {
    hide ResolvedTo, Work, Popped;
    ResolvedIsRecorded(x, ids, stack, outputs, b, id);
    ResolvedIsRecorded(x, ids, stack, outputs, b, id');
  }

  /** The position map is one-to-one: two positions never carry the same binding. */
  lemma {:induction false} BoundPositionsInjective(x: Crypto, ids: seq<InputAccountIdentity>, s: Exec, p: nat, q: nat)
    requires Invariant(x, ids, s) && p in s.boundPositions && q in s.boundPositions
    requires s.boundPositions[p] == s.boundPositions[q]
    ensures p == q
  {
    assert PositionBound(x, ids, s, p, s.boundPositions[p]) && PositionBound(x, ids, s, q, s.boundPositions[q]);
    assert IdsOf(s.preStates)[p] == IdsOf(s.preStates)[q];
  }
}
