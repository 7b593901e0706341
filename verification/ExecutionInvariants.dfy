/** What admitting, claiming and settling an account keep true of the execution state. */
module ExecutionInvariants {
  import opened Prelude
  import opened LedgerState
  import opened Programs
  import opened Execution

  ghost predicate Invariant(x: Crypto, ids: seq<InputAccountIdentity>, s: Exec)
  {
    && Threaded(s) && GlobalsJournaled(x, ids, s)
    && PositionsBound(x, ids, s) && FamilySound(x, ids, s) && ExternalsBound(ids, s)
  }

  lemma {:induction false} EmptyInvariant(x: Crypto, ids: seq<InputAccountIdentity>)
    ensures Invariant(x, ids, EMPTY_EXEC)
  {
    assert IdSet(IdsOf([])) == {};
  }

  /** `t` is `s` with bindings added that all derive account `id` at `pos`. */
  ghost predicate BindsAt(x: Crypto, ids: seq<InputAccountIdentity>, s: Exec, t: Exec, pos: nat, id: AccountId)
  {
    && t.preStates == s.preStates && t.postStates == s.postStates && t.globallyAuthorized == s.globallyAuthorized
    && (forall b :: b in s.family ==> b in t.family && t.family[b] == s.family[b])
    && (forall b :: b in t.family && b !in s.family ==> t.family[b] == id && Derives(x, ids, b, pos, id))
    && (forall p :: p in s.boundPositions ==> p in t.boundPositions && t.boundPositions[p] == s.boundPositions[p])
    && (forall p :: p in t.boundPositions && p !in s.boundPositions ==>
          p == pos && DerivesPrivately(x, ids, t, t.boundPositions[p], pos, id))
  }

  ghost predicate DerivesPrivately(
    x: Crypto, ids: seq<InputAccountIdentity>, t: Exec, b: Binding, pos: nat, id: AccountId)
  {
    && PdaKeysAt(x, ids, pos).Some?
    && x.privatePda(b, PdaKeysAt(x, ids, pos).value) == id
    && b in t.family && t.family[b] == id
  }

  lemma {:induction false} BindFamilyBinds(
    x: Crypto, ids: seq<InputAccountIdentity>, s: Exec, b: Binding, pos: nat, id: AccountId)
    requires BindFamily(s, b, id).Some? && Derives(x, ids, b, pos, id)
    ensures BindsAt(x, ids, s, BindFamily(s, b, id).value, pos, id)
    ensures b in BindFamily(s, b, id).value.family && BindFamily(s, b, id).value.family[b] == id
  {
  }

  /** Recording a private binding both ways, in either order. */
  lemma {:induction false} BindBothBinds(
    x: Crypto, ids: seq<InputAccountIdentity>, s: Exec, b: Binding, pos: nat, id: AccountId)
    requires PdaKeysAt(x, ids, pos).Some? && x.privatePda(b, PdaKeysAt(x, ids, pos).value) == id
    ensures BindPosition(s, pos, b).Some? && BindFamily(BindPosition(s, pos, b).value, b, id).Some? ==>
              BindsAt(x, ids, s, BindFamily(BindPosition(s, pos, b).value, b, id).value, pos, id)
    ensures BindFamily(s, b, id).Some? && BindPosition(BindFamily(s, b, id).value, pos, b).Some? ==>
              BindsAt(x, ids, s, BindPosition(BindFamily(s, b, id).value, pos, b).value, pos, id)
  {
  }

  lemma {:induction false} BindsAtReflexive(x: Crypto, ids: seq<InputAccountIdentity>, s: Exec, pos: nat, id: AccountId)
    ensures BindsAt(x, ids, s, s, pos, id)
  {
  }

  lemma {:induction false} BindsAtTransitive(
    x: Crypto, ids: seq<InputAccountIdentity>, s: Exec, t: Exec, u: Exec, pos: nat, id: AccountId)
    requires BindsAt(x, ids, s, t, pos, id) && BindsAt(x, ids, t, u, pos, id)
    ensures BindsAt(x, ids, s, u, pos, id)
  {
  }

  lemma {:induction false} CheckAuthorizationBinds(
    x: Crypto, ids: seq<InputAccountIdentity>, s: Exec, caller: CallerData, seeds: seq<PdaSeed>,
    id: AccountId, pos: nat, isAuthorized: bool)
    requires CheckAuthorization(x, ids, s, caller, seeds, id, pos, isAuthorized).Some?
    ensures BindsAt(x, ids, s, CheckAuthorization(x, ids, s, caller, seeds, id, pos, isAuthorized).value, pos, id)
  {
    hide BindsAt, MatchPublic, MatchPrivate, BindFamily, BindPosition;
    var public := MatchPublic(x, caller, seeds, id);
    var private := MatchPrivate(x, PdaKeysAt(x, ids, pos), caller, seeds, id);
    if public.Some? {
      BindFamilyBinds(x, ids, s, public.value, pos, id);
    } else if private.Some? {
      BindBothBinds(x, ids, s, private.value, pos, id);
    } else {
      BindsAtReflexive(x, ids, s, pos, id);
    }
  }

  lemma {:induction false} BindExternalBinds(
    x: Crypto, ids: seq<InputAccountIdentity>, s: Exec, id: AccountId, pos: nat)
    requires BindExternal(x, ids, s, id, pos).Some?
    ensures BindsAt(x, ids, s, BindExternal(x, ids, s, id, pos).value, pos, id)
  {
    hide BindsAt, BindFamily, BindPosition;
    match ExternalBinding(ids, pos)
    case None => BindsAtReflexive(x, ids, s, pos, id);
    case Some(b) => BindBothBinds(x, ids, s, b, pos, id);
  }

  lemma {:induction false} CheckClaimBinds(
    x: Crypto, ids: seq<InputAccountIdentity>, s: Exec, program: ProgramId, pre: AccountWithMetadata, post: AccountPostState, pos: nat)
    requires CheckClaim(x, ids, s, program, pre, post).Some?
    requires PositionIn(s.preStates, pre.accountId) == Some(pos)
    ensures BindsAt(x, ids, s, CheckClaim(x, ids, s, program, pre, post).value, pos, pre.accountId)
  {
    hide BindsAt, BindFamily, BindPosition, PositionIn;
    BindsAtReflexive(x, ids, s, pos, pre.accountId);
    if post.claim.Some? && post.claim.value.PdaClaim? {
      var b := Binding(program, post.claim.value.seed);
      if ids[pos].PublicIdentity? {
        BindFamilyBinds(x, ids, s, b, pos, pre.accountId);
      } else {
        BindBothBinds(x, ids, s, b, pos, pre.accountId);
      }
    }
  }

  /** Adding bindings for a journaled account keeps bindings sound, also when the account is being
      journaled by the same step. */
  lemma {:induction false} BindingsStaySound(
    x: Crypto, ids: seq<InputAccountIdentity>, s: Exec, t: Exec, u: Exec, pos: nat, id: AccountId)
    requires PositionsBound(x, ids, s) && FamilySound(x, ids, s)
    requires BindsAt(x, ids, s, t, pos, id)
    requires u.family == t.family && u.boundPositions == t.boundPositions
    requires s.preStates <= u.preStates && pos < |u.preStates| && u.preStates[pos].accountId == id
    ensures PositionsBound(x, ids, u) && FamilySound(x, ids, u)
  {
    forall b | b in u.family
      ensures exists p: nat :: p < |u.preStates| && u.preStates[p].accountId == u.family[b] && Derives(x, ids, b, p, u.family[b])
    {
      if b in s.family {
        var p: nat :| p < |s.preStates| && s.preStates[p].accountId == s.family[b] && Derives(x, ids, b, p, s.family[b]);
        assert u.preStates[p] == s.preStates[p];
      }
    }
    forall p | p in u.boundPositions
      ensures PositionBound(x, ids, u, p, u.boundPositions[p])
    {
      if p in s.boundPositions {
        assert PositionBound(x, ids, s, p, s.boundPositions[p]);
        assert u.preStates[p] == s.preStates[p];
      }
    }
  }

  // ---- positions ----

  /** With distinct ids the position of an account does not depend on how far it is searched. */
  lemma {:induction false} PositionStable(pres: seq<AccountWithMetadata>, more: seq<AccountWithMetadata>, id: AccountId)
    requires PositionIn(pres, id).Some? && pres <= more
    ensures PositionIn(more, id) == PositionIn(pres, id)
    decreases |pres|
  {
    if pres[0].accountId != id {
      PositionStable(pres[1..], more[1..], id);
    }
  }

  lemma {:induction false} PositionOfLast(pres: seq<AccountWithMetadata>, pre: AccountWithMetadata)
    requires PositionIn(pres, pre.accountId).None?
    ensures PositionIn(pres + [pre], pre.accountId) == Some(|pres|)
    decreases |pres|
  {
    if pres != [] {
      assert (pres + [pre])[1..] == pres[1..] + [pre];
      PositionOfLast(pres[1..], pre);
    }
  }

  lemma {:induction false} KnownIffJournaled(s: Exec, id: AccountId)
    requires Threaded(s)
    ensures id in s.postStates <==> PositionIn(s.preStates, id).Some?
  {
    if PositionIn(s.preStates, id).Some? {
      assert IdsOf(s.preStates)[PositionIn(s.preStates, id).value] == id;
    }
    if id in s.postStates {
      var i :| 0 <= i < |s.preStates| && IdsOf(s.preStates)[i] == id;
    }
  }

  // ---- admission ----

  /** What admission does to the journal: nothing for a known account, one more entry otherwise,
      and that entry is authorized exactly if the account was presented so and is not a public PDA
      granted by the caller. */
  lemma {:induction false} AdmitJournals(
    x: Crypto, ids: seq<InputAccountIdentity>, s: Exec, caller: CallerData, seeds: seq<PdaSeed>, pre: AccountWithMetadata)
    requires Invariant(x, ids, s) && Admit(x, ids, s, caller, seeds, pre).Some?
    ensures var t := Admit(x, ids, s, caller, seeds, pre).value;
            && t.postStates == s.postStates
            && if pre.accountId in s.postStates then
                 t.preStates == s.preStates && t.globallyAuthorized == s.globallyAuthorized
                 && s.postStates[pre.accountId] == pre.account
               else
                 var granted := PdaKeysAt(x, ids, |s.preStates|).None? && MatchPublic(x, caller, seeds, pre.accountId).Some?;
                 && t.preStates == s.preStates + [pre.(isAuthorized := pre.isAuthorized && !granted)]
                 && t.globallyAuthorized
                    == s.globallyAuthorized
                       + if PdaKeysAt(x, ids, |s.preStates|).None? && pre.isAuthorized && !granted then {pre.accountId} else {}
  {
    hide Invariant, BindsAt, MatchPublic, MatchPrivate;
    if pre.accountId in s.postStates {
      var pos := PositionIn(s.preStates, pre.accountId).value;
      CheckAuthorizationBinds(x, ids, s, caller, seeds, pre.accountId, pos, pre.isAuthorized);
      BindsAtKeepsJournal(x, ids, s, Admit(x, ids, s, caller, seeds, pre).value, pos, pre.accountId);
    } else {
      var pos := |s.preStates|;
      BindExternalBinds(x, ids, s, pre.accountId, pos);
      var t := BindExternal(x, ids, s, pre.accountId, pos).value;
      BindsAtKeepsJournal(x, ids, s, t, pos, pre.accountId);
      if PdaKeysAt(x, ids, pos).Some? {
        CheckAuthorizationBinds(x, ids, t, caller, seeds, pre.accountId, pos, pre.isAuthorized);
        var u := CheckAuthorization(x, ids, t, caller, seeds, pre.accountId, pos, pre.isAuthorized).value;
        BindsAtKeepsJournal(x, ids, t, u, pos, pre.accountId);
      }
    }
  }

  lemma {:induction false} BindsAtKeepsJournal(
    x: Crypto, ids: seq<InputAccountIdentity>, s: Exec, t: Exec, pos: nat, id: AccountId)
    requires BindsAt(x, ids, s, t, pos, id)
    ensures t.preStates == s.preStates && t.postStates == s.postStates && t.globallyAuthorized == s.globallyAuthorized
  {
  }

  /** The bindings made while admitting all belong to the admitted account. */
  lemma {:induction false} AdmitKeepsBindings(
    x: Crypto, ids: seq<InputAccountIdentity>, s: Exec, caller: CallerData, seeds: seq<PdaSeed>, pre: AccountWithMetadata)
    requires Invariant(x, ids, s) && Admit(x, ids, s, caller, seeds, pre).Some?
    ensures var t := Admit(x, ids, s, caller, seeds, pre).value;
            PositionsBound(x, ids, t) && FamilySound(x, ids, t)
  {
    AdmitJournals(x, ids, s, caller, seeds, pre);
    hide BindsAt, MatchPublic, MatchPrivate, CheckAuthorization, BindExternal;
    var id, t := pre.accountId, Admit(x, ids, s, caller, seeds, pre).value;
    if id in s.postStates {
      var pos := PositionIn(s.preStates, id).value;
      CheckAuthorizationBinds(x, ids, s, caller, seeds, id, pos, pre.isAuthorized);
      BindingsStaySound(x, ids, s, t, t, pos, id);
    } else {
      var pos := |s.preStates|;
      BindExternalBinds(x, ids, s, id, pos);
      var e := BindExternal(x, ids, s, id, pos).value;
      if PdaKeysAt(x, ids, pos).Some? {
        CheckAuthorizationBinds(x, ids, e, caller, seeds, id, pos, pre.isAuthorized);
        var u := CheckAuthorization(x, ids, e, caller, seeds, id, pos, pre.isAuthorized).value;
        BindsAtTransitive(x, ids, s, e, u, pos, id);
        BindingsStaySound(x, ids, s, u, t, pos, id);
      } else if MatchPublic(x, caller, seeds, id).Some? {
        var b := MatchPublic(x, caller, seeds, id).value;
        BindFamilyBinds(x, ids, e, b, pos, id);
        BindsAtTransitive(x, ids, s, e, BindFamily(e, b, id).value, pos, id);
        BindingsStaySound(x, ids, s, BindFamily(e, b, id).value, t, pos, id);
      } else {
        BindingsStaySound(x, ids, s, e, t, pos, id);
      }
    }
  }

  lemma {:induction false} ExternalsGrow(
    x: Crypto, ids: seq<InputAccountIdentity>, s: Exec, t: Exec, u: Exec, pos: nat, id: AccountId)
    requires ExternalsBound(ids, s) && BindsAt(x, ids, s, t, pos, id)
    requires u.boundPositions == t.boundPositions && s.preStates <= u.preStates
    requires u.preStates == s.preStates
             || (|u.preStates| == |s.preStates| + 1
                 && (ExternalBinding(ids, |s.preStates|).Some? ==>
                       && |s.preStates| in u.boundPositions
                       && u.boundPositions[|s.preStates|] == ExternalBinding(ids, |s.preStates|).value))
    ensures ExternalsBound(ids, u)
  {
  }

  /** A binding a witness names is recorded when its account is journaled. */
  lemma {:induction false} AdmitKeepsExternals(
    x: Crypto, ids: seq<InputAccountIdentity>, s: Exec, caller: CallerData, seeds: seq<PdaSeed>, pre: AccountWithMetadata)
    requires Invariant(x, ids, s) && Admit(x, ids, s, caller, seeds, pre).Some?
    ensures ExternalsBound(ids, Admit(x, ids, s, caller, seeds, pre).value)
  {
    AdmitJournals(x, ids, s, caller, seeds, pre);
    hide MatchPublic, MatchPrivate, CheckAuthorization, BindFamily, PositionsBound, FamilySound, Threaded, GlobalsJournaled, ExternalsBound;
    var id, t := pre.accountId, Admit(x, ids, s, caller, seeds, pre).value;
    if id in s.postStates {
      var pos := PositionIn(s.preStates, id).value;
      CheckAuthorizationBinds(x, ids, s, caller, seeds, id, pos, pre.isAuthorized);
      ExternalsGrow(x, ids, s, t, t, pos, id);
    } else {
      var pos := |s.preStates|;
      var e := BindExternal(x, ids, s, id, pos).value;
      BindExternalBinds(x, ids, s, id, pos);
      if ExternalBinding(ids, pos).Some? {
        ExternalRecorded(x, ids, s, id, pos);
      }
      if PdaKeysAt(x, ids, pos).Some? {
        var u := CheckAuthorization(x, ids, e, caller, seeds, id, pos, pre.isAuthorized).value;
        CheckAuthorizationBinds(x, ids, e, caller, seeds, id, pos, pre.isAuthorized);
        BindsAtTransitive(x, ids, s, e, u, pos, id);
        ExternalsGrow(x, ids, s, u, t, pos, id);
      } else {
        KeysNeededForExternal(x, ids, pos);
        PublicBindingKeepsPositions(e, id);
        ExternalsGrow(x, ids, s, e, t, pos, id);
      }
    }
  }

  lemma {:induction false} ExternalRecorded(x: Crypto, ids: seq<InputAccountIdentity>, s: Exec, id: AccountId, pos: nat)
    requires BindExternal(x, ids, s, id, pos).Some? && ExternalBinding(ids, pos).Some?
    ensures var e := BindExternal(x, ids, s, id, pos).value;
            pos in e.boundPositions && e.boundPositions[pos] == ExternalBinding(ids, pos).value
  {
  }

  lemma {:induction false} KeysNeededForExternal(x: Crypto, ids: seq<InputAccountIdentity>, pos: nat)
    ensures ExternalBinding(ids, pos).Some? ==> PdaKeysAt(x, ids, pos).Some?
  {
  }

  lemma {:induction false} PublicBindingKeepsPositions(s: Exec, id: AccountId)
    ensures forall b :: BindFamily(s, b, id).Some? ==> BindFamily(s, b, id).value.boundPositions == s.boundPositions
  {
  }

  lemma {:induction false} FreelySnoc(
    x: Crypto, ids: seq<InputAccountIdentity>, pres: seq<AccountWithMetadata>, e: AccountWithMetadata, id: AccountId)
    ensures FreelyAuthorized(x, ids, pres + [e], id)
            <==> || FreelyAuthorized(x, ids, pres, id)
                 || (e.accountId == id && e.isAuthorized && PdaKeysAt(x, ids, |pres|).None?)
  {
    hide PdaKeysAt;
    if i: nat :| i < |pres| && pres[i].accountId == id && pres[i].isAuthorized && PdaKeysAt(x, ids, i).None? {
      assert (pres + [e])[i] == pres[i];
    }
    assert (pres + [e])[|pres|] == e;
  }

  lemma {:induction false} GlobalsExtend(
    x: Crypto, ids: seq<InputAccountIdentity>, s: Exec, t: Exec, e: AccountWithMetadata)
    requires GlobalsJournaled(x, ids, s) && t.preStates == s.preStates + [e]
    requires t.globallyAuthorized
             == s.globallyAuthorized + if PdaKeysAt(x, ids, |s.preStates|).None? && e.isAuthorized then {e.accountId} else {}
    ensures GlobalsJournaled(x, ids, t)
  {
    hide FreelyAuthorized, PdaKeysAt;
    forall id
      ensures id in t.globallyAuthorized <==> FreelyAuthorized(x, ids, t.preStates, id)
    {
      FreelySnoc(x, ids, s.preStates, e, id);
    }
  }

  lemma {:induction false} IdsOfSnoc(pres: seq<AccountWithMetadata>, pre: AccountWithMetadata)
    ensures IdsOf(pres + [pre]) == IdsOf(pres) + [pre.accountId]
  {
  }

  /** `t` has the journal of `s`, with `pre` appended if it is new, and a new state for it. */
  ghost predicate Touched(s: Exec, t: Exec, pre: AccountWithMetadata, after: Account)
  {
    && t.postStates == s.postStates[pre.accountId := after]
    && if pre.accountId in s.postStates then t.preStates == s.preStates
       else
         && |t.preStates| == |s.preStates| + 1 && s.preStates <= t.preStates
         && t.preStates[|s.preStates|] == pre.(isAuthorized := t.preStates[|s.preStates|].isAuthorized)
  }

  lemma {:induction false} TouchedStaysThreaded(s: Exec, t: Exec, pre: AccountWithMetadata, after: Account)
    requires Threaded(s) && Touched(s, t, pre, after)
    ensures Threaded(t)
  {
    if pre.accountId !in s.postStates {
      var last := t.preStates[|s.preStates|];
      assert t.preStates == s.preStates + [last];
      IdsOfSnoc(s.preStates, last);
      DistinctSnoc(IdsOf(t.preStates));
      IdSetSnoc(IdsOf(t.preStates));
      assert IdsOf(t.preStates)[..|s.preStates|] == IdsOf(s.preStates);
    }
  }

  /** Admission leaves the account journaled, and globals stay journaled as authorized. */
  lemma {:induction false} AdmitKeepsGlobals(
    x: Crypto, ids: seq<InputAccountIdentity>, s: Exec, caller: CallerData, seeds: seq<PdaSeed>, pre: AccountWithMetadata)
    requires Invariant(x, ids, s) && Admit(x, ids, s, caller, seeds, pre).Some?
    ensures var t := Admit(x, ids, s, caller, seeds, pre).value;
            GlobalsJournaled(x, ids, t) && PositionIn(t.preStates, pre.accountId).Some?
  {
    AdmitJournals(x, ids, s, caller, seeds, pre);
    hide Admit, PositionsBound, FamilySound;
    var t := Admit(x, ids, s, caller, seeds, pre).value;
    KnownIffJournaled(s, pre.accountId);
    if pre.accountId !in s.postStates {
      PositionOfLast(s.preStates, t.preStates[|s.preStates|]);
      GlobalsExtend(x, ids, s, t, t.preStates[|s.preStates|]);
    } else {
      GlobalsDependOnJournal(x, ids, s, t);
    }
  }

  /** One pair of a call keeps the invariant, extends the journal by the account if it is new,
      requires a known account as it was last left, and settles it. */
  lemma {:induction false} SyncOneKeepsInvariant(
    x: Crypto, ids: seq<InputAccountIdentity>, s: Exec, program: ProgramId, caller: CallerData,
    seeds: seq<PdaSeed>, pre: AccountWithMetadata, post: AccountPostState)
    requires Invariant(x, ids, s) && SyncOne(x, ids, s, program, caller, seeds, pre, post).Some?
    ensures var t := SyncOne(x, ids, s, program, caller, seeds, pre, post).value;
            && Invariant(x, ids, t)
            && Touched(s, t, pre, Settled(program, post))
            && (pre.accountId in s.postStates ==> s.postStates[pre.accountId] == pre.account)
  {
    AdmitJournals(x, ids, s, caller, seeds, pre);
    AdmitKeepsBindings(x, ids, s, caller, seeds, pre);
    AdmitKeepsGlobals(x, ids, s, caller, seeds, pre);
    AdmitKeepsExternals(x, ids, s, caller, seeds, pre);
    hide Admit, CheckClaim, PositionsBound, FamilySound, BindsAt, Threaded, GlobalsJournaled, ExternalsBound;
    var a := Admit(x, ids, s, caller, seeds, pre).value;
    var pos := PositionIn(a.preStates, pre.accountId).value;
    CheckClaimBinds(x, ids, a, program, pre, post, pos);
    var u := CheckClaim(x, ids, a, program, pre, post).value;
    BindsAtKeepsJournal(x, ids, a, u, pos, pre.accountId);
    var t := SyncOne(x, ids, s, program, caller, seeds, pre, post).value;
    BindingsStaySound(x, ids, a, u, t, pos, pre.accountId);
    ExternalsGrow(x, ids, a, u, t, pos, pre.accountId);
    TouchedStaysThreaded(s, t, pre, Settled(program, post));
    GlobalsDependOnJournal(x, ids, a, t);
  }

  lemma {:induction false} GlobalsDependOnJournal(x: Crypto, ids: seq<InputAccountIdentity>, s: Exec, t: Exec)
    requires GlobalsJournaled(x, ids, s)
    requires t.preStates == s.preStates && t.globallyAuthorized == s.globallyAuthorized
    ensures GlobalsJournaled(x, ids, t)
  {
  }
}
