/** Where authorization comes from, and how program-derived accounts are bound. */
module Provenance {
  import opened Prelude
  import opened LedgerState
  import opened Programs
  import opened Execution
  import opened ExecutionInvariants
  import opened CallTrees
  import opened Threading

  /** The call was given a seed that derives `id` under its caller's program id, publicly or under
      the keys supplied for the place of `id` in the journal. */
  ghost predicate Granted(
    x: Crypto, ids: seq<InputAccountIdentity>, journal: seq<AccountWithMetadata>, frame: Frame, id: AccountId)
  {
    PositionIn(journal, id).Some?
    && exists b: Binding :: && frame.caller.programId == Some(b.program) && b.seed in frame.call.pdaSeeds
                   && Derives(x, ids, b, PositionIn(journal, id).value, id)
  }

  /** The call reads account `id`. */
  ghost predicate Lists(out: ProgramOutput, id: AccountId)
  {
    exists i :: 0 <= i < |out.preStates| && out.preStates[i].accountId == id
  }

  /** One of `calls` reads `id` and was granted it. */
  ghost predicate GrantedOnPath(
    x: Crypto, ids: seq<InputAccountIdentity>, journal: seq<AccountWithMetadata>, calls: seq<Executed>, id: AccountId)
  {
    exists k :: 0 <= k < |calls| && Lists(calls[k].output, id) && Granted(x, ids, journal, calls[k].frame, id)
  }

  /** `id` is freely authorized, or was granted on the path. */
  ghost predicate Justified(
    x: Crypto, ids: seq<InputAccountIdentity>, journal: seq<AccountWithMetadata>, calls: seq<Executed>, id: AccountId)
  {
    FreelyAuthorized(x, ids, journal, id) || GrantedOnPath(x, ids, journal, calls, id)
  }

  lemma {:induction false} GrantedOnPathSnoc(
    x: Crypto, ids: seq<InputAccountIdentity>, journal: seq<AccountWithMetadata>, calls: seq<Executed>, e: Executed,
    id: AccountId)
    ensures GrantedOnPath(x, ids, journal, calls + [e], id)
            <==> || GrantedOnPath(x, ids, journal, calls, id)
                 || (Lists(e.output, id) && Granted(x, ids, journal, e.frame, id))
  {
    hide Lists, Granted;
    var all := calls + [e];
    if k :| 0 <= k < |calls| && Lists(calls[k].output, id) && Granted(x, ids, journal, calls[k].frame, id) {
      assert all[k] == calls[k];
    }
    assert all[|calls|] == e;
  }

  /** What is known of a journaled account does not change as the journal grows. */
  lemma {:induction false} JournaledIsSettled(
    x: Crypto, ids: seq<InputAccountIdentity>, journal: seq<AccountWithMetadata>, more: seq<AccountWithMetadata>,
    frame: Frame, id: AccountId)
    requires journal <= more && Distinct(IdsOf(more)) && PositionIn(journal, id).Some?
    ensures Granted(x, ids, journal, frame, id) <==> Granted(x, ids, more, frame, id)
    ensures FreelyAuthorized(x, ids, journal, id) <==> FreelyAuthorized(x, ids, more, id)
  {
    PositionStable(journal, more, id);
    var pos := PositionIn(journal, id).value;
    hide PositionIn, PdaKeysAt;
    if i: nat :| i < |more| && more[i].accountId == id && more[i].isAuthorized && PdaKeysAt(x, ids, i).None? {
      assert IdsOf(more)[i] == IdsOf(more)[pos];
      assert more[pos] == journal[pos];
    }
    if i: nat :| i < |journal| && journal[i].accountId == id && journal[i].isAuthorized && PdaKeysAt(x, ids, i).None? {
      assert more[i] == journal[i];
    }
  }

  // ---- one account of one call ----

  /** A call was granted an account exactly when one of its seeds matches it, publicly or privately. */
  lemma {:induction false} GrantedIffMatched(
    x: Crypto, ids: seq<InputAccountIdentity>, journal: seq<AccountWithMetadata>, frame: Frame, id: AccountId, pos: nat)
    requires PositionIn(journal, id) == Some(pos)
    ensures Granted(x, ids, journal, frame, id)
            <==> || MatchPublic(x, frame.caller, frame.call.pdaSeeds, id).Some?
                 || MatchPrivate(x, PdaKeysAt(x, ids, pos), frame.caller, frame.call.pdaSeeds, id).Some?
  {
    hide MatchPublic, MatchPrivate, PositionIn, PdaKeysAt;
    var seeds := frame.call.pdaSeeds;
    var public := MatchPublic(x, frame.caller, seeds, id);
    var private := MatchPrivate(x, PdaKeysAt(x, ids, pos), frame.caller, seeds, id);
    if public.Some? {
      assert GrantsPublic(x, frame.caller, seeds, id, public.value);
    } else if private.Some? {
      assert GrantsPrivate(x, PdaKeysAt(x, ids, pos), frame.caller, seeds, id, private.value);
    } else if frame.caller.programId.Some? {
      forall b: Binding | frame.caller.programId == Some(b.program) && b.seed in seeds
        ensures !Derives(x, ids, b, pos, id)
      {
        assert b == Binding(frame.caller.programId.value, b.seed);
      }
    }
  }

  /** Everything the caller hands down is journaled. */
  ghost predicate InheritedKnown(journal: seq<AccountWithMetadata>, frame: Frame)
  {
    forall id :: id in frame.caller.authorizedAccounts ==> PositionIn(journal, id).Some?
  }

  lemma {:induction false} CheckedAuthority(
    x: Crypto, ids: seq<InputAccountIdentity>, s: Exec, caller: CallerData, seeds: seq<PdaSeed>, id: AccountId, pos: nat,
    isAuthorized: bool)
    requires CheckAuthorization(x, ids, s, caller, seeds, id, pos, isAuthorized).Some?
    ensures isAuthorized <==> || MatchPublic(x, caller, seeds, id).Some?
                              || MatchPrivate(x, PdaKeysAt(x, ids, pos), caller, seeds, id).Some?
                              || id in s.globallyAuthorized || id in caller.authorizedAccounts
  {
    hide MatchPublic, MatchPrivate, BindFamily, BindPosition;
  }

  /** An account is admitted as authorized exactly when it is freely authorized, granted to the call
      or handed down by the caller. */
  lemma {:induction false} AdmitExact(
    x: Crypto, ids: seq<InputAccountIdentity>, s: Exec, frame: Frame, pre: AccountWithMetadata)
    requires Invariant(x, ids, s) && InheritedKnown(s.preStates, frame)
    requires Admit(x, ids, s, frame.caller, frame.call.pdaSeeds, pre).Some?
    ensures var t := Admit(x, ids, s, frame.caller, frame.call.pdaSeeds, pre).value;
            pre.isAuthorized <==> || FreelyAuthorized(x, ids, t.preStates, pre.accountId)
                                  || Granted(x, ids, t.preStates, frame, pre.accountId)
                                  || pre.accountId in frame.caller.authorizedAccounts
  {
    KnownIffJournaled(s, pre.accountId);
    if pre.accountId in s.postStates {
      AdmitKnownExact(x, ids, s, frame, pre);
    } else {
      AdmitNewExact(x, ids, s, frame, pre);
    }
  }

  lemma {:induction false} AdmitKnownExact(
    x: Crypto, ids: seq<InputAccountIdentity>, s: Exec, frame: Frame, pre: AccountWithMetadata)
    requires Invariant(x, ids, s) && pre.accountId in s.postStates && PositionIn(s.preStates, pre.accountId).Some?
    requires Admit(x, ids, s, frame.caller, frame.call.pdaSeeds, pre).Some?
    ensures var t := Admit(x, ids, s, frame.caller, frame.call.pdaSeeds, pre).value;
            pre.isAuthorized <==> || FreelyAuthorized(x, ids, t.preStates, pre.accountId)
                                  || Granted(x, ids, t.preStates, frame, pre.accountId)
                                  || pre.accountId in frame.caller.authorizedAccounts
  {
    var seeds, id := frame.call.pdaSeeds, pre.accountId;
    var pos := PositionIn(s.preStates, id).value;
    AdmitJournals(x, ids, s, frame.caller, seeds, pre);
    assert CheckAuthorization(x, ids, s, frame.caller, seeds, id, pos, pre.isAuthorized).Some?;
    assert id in s.globallyAuthorized <==> FreelyAuthorized(x, ids, s.preStates, id);
    hide Invariant, Admit, CheckAuthorization, MatchPublic, MatchPrivate, FreelyAuthorized, Granted, PositionIn;
    CheckedAuthority(x, ids, s, frame.caller, seeds, id, pos, pre.isAuthorized);
    GrantedIffMatched(x, ids, s.preStates, frame, id, pos);
  }

  lemma {:induction false} AdmitNewExact(
    x: Crypto, ids: seq<InputAccountIdentity>, s: Exec, frame: Frame, pre: AccountWithMetadata)
    requires Invariant(x, ids, s) && InheritedKnown(s.preStates, frame)
    requires pre.accountId !in s.postStates && PositionIn(s.preStates, pre.accountId).None?
    requires Admit(x, ids, s, frame.caller, frame.call.pdaSeeds, pre).Some?
    ensures var t := Admit(x, ids, s, frame.caller, frame.call.pdaSeeds, pre).value;
            pre.isAuthorized <==> || FreelyAuthorized(x, ids, t.preStates, pre.accountId)
                                  || Granted(x, ids, t.preStates, frame, pre.accountId)
                                  || pre.accountId in frame.caller.authorizedAccounts
  {
    var seeds, id, pos := frame.call.pdaSeeds, pre.accountId, |s.preStates|;
    AdmitJournals(x, ids, s, frame.caller, seeds, pre);
    var t := Admit(x, ids, s, frame.caller, seeds, pre).value;
    FreelySnoc(x, ids, s.preStates, t.preStates[pos], id);
    PositionOfLast(s.preStates, t.preStates[pos]);
    GrantedIffMatched(x, ids, t.preStates, frame, id, pos);
    NeverFree(x, ids, s.preStates, id);
    BindExternalBinds(x, ids, s, id, pos);
    var e := BindExternal(x, ids, s, id, pos).value;
    BindsAtKeepsJournal(x, ids, s, e, pos, id);
    assert id !in s.globallyAuthorized && id !in frame.caller.authorizedAccounts;
    if PdaKeysAt(x, ids, pos).Some? {
      assert CheckAuthorization(x, ids, e, frame.caller, seeds, id, pos, pre.isAuthorized).Some?;
      CheckedAuthority(x, ids, e, frame.caller, seeds, id, pos, pre.isAuthorized);
    } else {
      NoKeysNoMatch(x, frame.caller, seeds, id);
    }
  }

  lemma {:induction false} NeverFree(
    x: Crypto, ids: seq<InputAccountIdentity>, journal: seq<AccountWithMetadata>, id: AccountId)
    requires PositionIn(journal, id).None?
    ensures !FreelyAuthorized(x, ids, journal, id)
  {
  }

  lemma {:induction false} NoKeysNoMatch(x: Crypto, caller: CallerData, seeds: seq<PdaSeed>, id: AccountId)
    ensures MatchPrivate(x, None, caller, seeds, id).None?
  {
  }

  /** Every account a processed call reads is presented as authorized exactly when it may be. */
  lemma {:induction false} SyncExact(
    x: Crypto, ids: seq<InputAccountIdentity>, s: Exec, frame: Frame, pres: seq<AccountWithMetadata>,
    posts: seq<AccountPostState>, n: nat, i: nat)
    requires n <= |pres| && n <= |posts| && i < n
    requires Invariant(x, ids, s) && InheritedKnown(s.preStates, frame)
    requires SyncUpTo(x, ids, s, frame.call.programId, frame.caller, frame.call.pdaSeeds, pres, posts, n).Some?
    ensures var t := SyncUpTo(x, ids, s, frame.call.programId, frame.caller, frame.call.pdaSeeds, pres, posts, n).value;
            && PositionIn(t.preStates, pres[i].accountId).Some?
            && (pres[i].isAuthorized <==> || FreelyAuthorized(x, ids, t.preStates, pres[i].accountId)
                                          || Granted(x, ids, t.preStates, frame, pres[i].accountId)
                                          || pres[i].accountId in frame.caller.authorizedAccounts)
  {
    hide Granted, FreelyAuthorized, Invariant, Admit, CheckClaim, InheritedKnown, Distinct;
    var program, seeds := frame.call.programId, frame.call.pdaSeeds;
    var before := SyncUpTo(x, ids, s, program, frame.caller, seeds, pres, posts, n - 1).value;
    var t := SyncUpTo(x, ids, s, program, frame.caller, seeds, pres, posts, n).value;
    SyncKeepsInvariant(x, ids, s, program, frame.caller, seeds, pres, posts, n - 1);
    SyncOneKeepsInvariant(x, ids, before, program, frame.caller, seeds, pres[n - 1], posts[n - 1]);
    DistinctWhenInvariant(x, ids, t);
    if i < n - 1 {
      SyncExact(x, ids, s, frame, pres, posts, n - 1, i);
      JournaledIsSettled(x, ids, before.preStates, t.preStates, frame, pres[i].accountId);
      PositionStable(before.preStates, t.preStates, pres[i].accountId);
    } else {
      InheritedStaysKnown(s.preStates, before.preStates, frame);
      AdmitExact(x, ids, before, frame, pres[i]);
      SyncOneKeepsAdmitted(x, ids, before, program, frame.caller, seeds, pres[i], posts[i]);
      AdmitKeepsGlobals(x, ids, before, frame.caller, seeds, pres[i]);
    }
  }

  lemma {:induction false} DistinctWhenInvariant(x: Crypto, ids: seq<InputAccountIdentity>, s: Exec)
    requires Invariant(x, ids, s)
    ensures Distinct(IdsOf(s.preStates))
  {
  }

  lemma {:induction false} InheritedStaysKnown(
    journal: seq<AccountWithMetadata>, more: seq<AccountWithMetadata>, frame: Frame)
    requires InheritedKnown(journal, frame) && journal <= more
    ensures InheritedKnown(more, frame)
  {
    forall id | id in frame.caller.authorizedAccounts
      ensures PositionIn(more, id).Some?
    {
      PositionStable(journal, more, id);
    }
  }

  lemma {:induction false} SyncOneKeepsAdmitted(
    x: Crypto, ids: seq<InputAccountIdentity>, s: Exec, program: ProgramId, caller: CallerData,
    seeds: seq<PdaSeed>, pre: AccountWithMetadata, post: AccountPostState)
    requires Invariant(x, ids, s) && SyncOne(x, ids, s, program, caller, seeds, pre, post).Some?
    ensures Admit(x, ids, s, caller, seeds, pre).Some?
    ensures SyncOne(x, ids, s, program, caller, seeds, pre, post).value.preStates == Admit(x, ids, s, caller, seeds, pre).value.preStates
  {
    AdmitKeepsGlobals(x, ids, s, caller, seeds, pre);
    hide Admit, BindsAt;
    var a := Admit(x, ids, s, caller, seeds, pre).value;
    var pos := PositionIn(a.preStates, pre.accountId).value;
    CheckClaimBinds(x, ids, a, program, pre, post, pos);
    BindsAtKeepsJournal(x, ids, a, CheckClaim(x, ids, a, program, pre, post).value, pos, pre.accountId);
  }

  // ---- whole trees ----

  /** Executing calls keeps the invariant and only appends to the journal. */
  lemma {:induction false} ExecuteGrows(
    x: Crypto, ids: seq<InputAccountIdentity>, s: Exec, f: Calls, frames: seq<Frame>)
    requires Invariant(x, ids, s) && Matches(x, f, frames) && Execute(x, ids, s, f, frames).Some?
    ensures var t := Execute(x, ids, s, f, frames).value;
            Invariant(x, ids, t) && s.preStates <= t.preStates
    decreases f
  {
    hide Invariant, SyncUpTo;
    match f
    case NoCalls =>
    case Call(out, made, next) =>
      SyncKeepsInvariant(x, ids, s, frames[0].call.programId, frames[0].caller, frames[0].call.pdaSeeds,
                         out.preStates, out.postStates, |out.preStates|);
      var t := Process(x, ids, s, frames[0], out).value;
      ExecuteGrows(x, ids, t, made, ChildFrames(frames[0], out));
      var u := Execute(x, ids, t, made, ChildFrames(frames[0], out)).value;
      ExecuteGrows(x, ids, u, next, frames[1..]);
  }

  /** What the ancestors hand down is exactly what they read and may authorize. */
  ghost predicate HandedDown(
    x: Crypto, ids: seq<InputAccountIdentity>, journal: seq<AccountWithMetadata>, ancestors: seq<Executed>)
  {
    forall id :: id in AuthorizedByAll(ancestors)
                 <==> ListedIn(ancestors, id) && Justified(x, ids, journal, ancestors, id)
  }

  ghost predicate ListedIn(calls: seq<Executed>, id: AccountId)
  {
    exists k :: 0 <= k < |calls| && Lists(calls[k].output, id)
  }

  lemma {:induction false} ListedInSnoc(calls: seq<Executed>, e: Executed, id: AccountId)
    ensures ListedIn(calls + [e], id) <==> ListedIn(calls, id) || Lists(e.output, id)
  {
    hide Lists;
    var all := calls + [e];
    if k :| 0 <= k < |calls| && Lists(calls[k].output, id) {
      assert all[k] == calls[k];
    }
    assert all[|calls|] == e;
  }

  lemma {:induction false} GrantedIsListed(
    x: Crypto, ids: seq<InputAccountIdentity>, journal: seq<AccountWithMetadata>, calls: seq<Executed>, id: AccountId)
    ensures GrantedOnPath(x, ids, journal, calls, id) ==> ListedIn(calls, id)
  {
    hide Lists, Granted;
  }

  /** An output lists each account once, so it is in the authorized set exactly as it is presented. */
  lemma {:induction false} PresentedOnce(pres: seq<AccountWithMetadata>, i: nat)
    requires Distinct(IdsOf(pres)) && i < |pres|
    ensures pres[i].accountId in AuthorizedIn(pres) <==> pres[i].isAuthorized
  {
    if j :| 0 <= j < |pres| && pres[j].isAuthorized && pres[j].accountId == pres[i].accountId {
      assert IdsOf(pres)[i] == IdsOf(pres)[j];
    }
  }

  lemma {:induction false} AcceptedListsOnce(x: Crypto, ids: seq<InputAccountIdentity>, s: Exec, frame: Frame, out: ProgramOutput)
    requires Process(x, ids, s, frame, out).Some?
    ensures Distinct(IdsOf(out.preStates)) && |out.preStates| == |out.postStates|
    ensures SyncUpTo(x, ids, s, frame.call.programId, frame.caller, frame.call.pdaSeeds, out.preStates, out.postStates, |out.preStates|)
            == Process(x, ids, s, frame, out)
  {
    hide SyncUpTo;
  }

  /** One processed call: it presents an account it reads as authorized exactly when that is justified
      by its ancestors and itself. */
  lemma {:induction false} ProcessExact(
    x: Crypto, ids: seq<InputAccountIdentity>, s: Exec, frame: Frame, out: ProgramOutput, ancestors: seq<Executed>,
    journal: seq<AccountWithMetadata>, id: AccountId)
    requires Invariant(x, ids, s) && InheritedKnown(s.preStates, frame) && Process(x, ids, s, frame, out).Some?
    requires Process(x, ids, s, frame, out).value.preStates <= journal && Distinct(IdsOf(journal))
    requires Inherits([frame], ancestors) && HandedDown(x, ids, journal, ancestors) && Lists(out, id)
    ensures id in AuthorizedIn(out.preStates) <==> Justified(x, ids, journal, ancestors + [Executed(frame, out)], id)
  {
    AcceptedListsOnce(x, ids, s, frame, out);
    var i: nat :| i < |out.preStates| && out.preStates[i].accountId == id;
    assert [frame][0].caller.authorizedAccounts == AuthorizedByAll(ancestors);
    hide Process, Granted, Invariant, SyncUpTo, FreelyAuthorized, InheritedKnown, GrantedOnPath, ListedIn, AuthorizedByAll, AuthorizedIn, Distinct;
    PresentedOnce(out.preStates, i);
    SyncExact(x, ids, s, frame, out.preStates, out.postStates, |out.preStates|, i);
    JournaledIsSettled(x, ids, Process(x, ids, s, frame, out).value.preStates, journal, frame, id);
    GrantedOnPathSnoc(x, ids, journal, ancestors, Executed(frame, out), id);
    GrantedIsListed(x, ids, journal, ancestors, id);
  }

  lemma {:induction false} HandedDownGrows(
    x: Crypto, ids: seq<InputAccountIdentity>, s: Exec, frame: Frame, out: ProgramOutput, ancestors: seq<Executed>,
    journal: seq<AccountWithMetadata>)
    requires Invariant(x, ids, s) && InheritedKnown(s.preStates, frame) && Process(x, ids, s, frame, out).Some?
    requires Process(x, ids, s, frame, out).value.preStates <= journal && Distinct(IdsOf(journal))
    requires Inherits([frame], ancestors) && HandedDown(x, ids, journal, ancestors)
    ensures HandedDown(x, ids, journal, ancestors + [Executed(frame, out)])
  {
    var self := Executed(frame, out);
    var all := ancestors + [self];
    assert all[..|all| - 1] == ancestors;
    forall id
      ensures id in AuthorizedByAll(all) <==> ListedIn(all, id) && Justified(x, ids, journal, all, id)
    {
      hide Process, Granted, Invariant, FreelyAuthorized, InheritedKnown, GrantedOnPath, ListedIn, Distinct;
      ListedInSnoc(ancestors, self, id);
      GrantedOnPathSnoc(x, ids, journal, ancestors, self, id);
      GrantedIsListed(x, ids, journal, ancestors, id);
      if Lists(out, id) {
        ProcessExact(x, ids, s, frame, out, ancestors, journal, id);
      }
    }
  }

  /** What a call hands down is journaled when it has been processed. */
  lemma {:induction false} ChildrenKnow(x: Crypto, ids: seq<InputAccountIdentity>, s: Exec, frame: Frame, out: ProgramOutput)
    requires Invariant(x, ids, s) && InheritedKnown(s.preStates, frame) && Process(x, ids, s, frame, out).Some?
    ensures var t := Process(x, ids, s, frame, out).value;
            forall i :: 0 <= i < |ChildFrames(frame, out)| ==> InheritedKnown(t.preStates, ChildFrames(frame, out)[i])
  {
    AcceptedListsOnce(x, ids, s, frame, out);
    ProcessGrows(x, ids, s, frame, out);
    var t := Process(x, ids, s, frame, out).value;
    InheritedStaysKnown(s.preStates, t.preStates, frame);
    forall id | id in frame.caller.authorizedAccounts + AuthorizedIn(out.preStates)
      ensures PositionIn(t.preStates, id).Some?
    {
      hide Process, Invariant, Granted, FreelyAuthorized;
      if id in AuthorizedIn(out.preStates) {
        var i :| 0 <= i < |out.preStates| && out.preStates[i].isAuthorized && out.preStates[i].accountId == id;
        SyncExact(x, ids, s, frame, out.preStates, out.postStates, |out.preStates|, i);
      }
    }
  }

  ghost predicate AllKnow(journal: seq<AccountWithMetadata>, frames: seq<Frame>)
  {
    forall i :: 0 <= i < |frames| ==> InheritedKnown(journal, frames[i])
  }

  lemma {:induction false} AllStayKnown(journal: seq<AccountWithMetadata>, more: seq<AccountWithMetadata>, frames: seq<Frame>)
    requires AllKnow(journal, frames) && journal <= more
    ensures AllKnow(more, frames)
  {
    forall i | 0 <= i < |frames|
      ensures InheritedKnown(more, frames[i])
    {
      InheritedStaysKnown(journal, more, frames[i]);
    }
  }

  /** Authorization provenance, exactly: a call of an executed tree presents an account it reads as
      authorized if and only if the account is journaled as authorized from its first sight and is no
      private PDA, or this call or one of its ancestors reads it and was given a seed deriving it under
      its caller's program id. Nothing a sibling was granted counts. */
  lemma {:induction false} AuthorizationProvenance(
    x: Crypto, ids: seq<InputAccountIdentity>, s: Exec, f: Calls, frames: seq<Frame>, ancestors: seq<Executed>,
    journal: seq<AccountWithMetadata>, v: Visit, id: AccountId)
    requires Invariant(x, ids, s) && AllKnow(s.preStates, frames)
    requires Matches(x, f, frames) && Execute(x, ids, s, f, frames).Some?
    requires Execute(x, ids, s, f, frames).value.preStates <= journal && Distinct(IdsOf(journal))
    requires Inherits(frames, ancestors) && HandedDown(x, ids, journal, ancestors)
    requires v in Visits(f, frames, ancestors) && Lists(v.self.output, id)
    ensures id in AuthorizedIn(v.self.output.preStates) <==> Justified(x, ids, journal, v.ancestors + [v.self], id)
    decreases f
  {
    hide Invariant, Justified, HandedDown, Process, Accepts, AuthorizedByAll, InheritedKnown, Lists, AuthorizedIn, Distinct;
    match f
    case Call(out, made, next) =>
      var self, kids := Executed(frames[0], out), ChildFrames(frames[0], out);
      var t := Process(x, ids, s, frames[0], out).value;
      ProcessGrows(x, ids, s, frames[0], out);
      ExecuteGrows(x, ids, t, made, kids);
      var u := Execute(x, ids, t, made, kids).value;
      ExecuteGrows(x, ids, u, next, frames[1..]);
      assert Inherits([frames[0]], ancestors);
      if v == Visit(self, ancestors) {
        ProcessExact(x, ids, s, frames[0], out, ancestors, journal, id);
      } else if v in Visits(made, kids, ancestors + [self]) {
        HandedDownGrows(x, ids, s, frames[0], out, ancestors, journal);
        ChildrenInherit(frames, ancestors, out);
        ChildrenKnow(x, ids, s, frames[0], out);
        AuthorizationProvenance(x, ids, t, made, kids, ancestors + [self], journal, v, id);
      } else {
        AllStayKnown(s.preStates, u.preStates, frames[1..]);
        AuthorizationProvenance(x, ids, u, next, frames[1..], ancestors, journal, v, id);
      }
  }

  lemma {:induction false} ProcessGrows(
    x: Crypto, ids: seq<InputAccountIdentity>, s: Exec, frame: Frame, out: ProgramOutput)
    requires Invariant(x, ids, s) && Process(x, ids, s, frame, out).Some?
    ensures var t := Process(x, ids, s, frame, out).value; Invariant(x, ids, t) && s.preStates <= t.preStates
  {
    SyncKeepsInvariant(x, ids, s, frame.call.programId, frame.caller, frame.call.pdaSeeds,
                       out.preStates, out.postStates, |out.preStates|);
  }
}
