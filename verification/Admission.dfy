/** Exactly when the circuit admits an account and honours a claim on it, and what it then records. */
module Admission {
  import opened Prelude
  import opened LedgerState
  import opened Programs
  import opened Execution
  import opened ExecutionInvariants

  // ---- recording bindings ----

  /** Resolving the bindings `fam` to account `id`, and binding its place `pos` to `at`, contradicts
      nothing on record. */
  ghost predicate Compatible(s: Exec, id: AccountId, pos: nat, fam: set<Binding>, at: set<Binding>)
  {
    && (forall b :: b in fam && b in s.family ==> s.family[b] == id)
    && (forall b :: b in at && pos in s.boundPositions ==> s.boundPositions[pos] == b)
    && (forall b, c :: b in at && c in at ==> b == c)
  }

  /** `t` has exactly those bindings on record besides those of `s`. */
  ghost predicate Adds(s: Exec, t: Exec, id: AccountId, pos: nat, fam: set<Binding>, at: set<Binding>)
  {
    && t.family.Keys == s.family.Keys + fam
    && (forall b :: b in t.family ==> t.family[b] == if b in fam then id else s.family[b])
    && t.boundPositions.Keys == s.boundPositions.Keys + (if at == {} then {} else {pos})
    && (forall p :: p in t.boundPositions ==>
          if p == pos && at != {} then t.boundPositions[p] in at else t.boundPositions[p] == s.boundPositions[p])
  }

  predicate SameJournal(s: Exec, t: Exec)
  {
    t.preStates == s.preStates && t.postStates == s.postStates && t.globallyAuthorized == s.globallyAuthorized
  }

  lemma {:induction false} AddsNothing(s: Exec, id: AccountId, pos: nat)
    ensures Compatible(s, id, pos, {}, {}) && Adds(s, s, id, pos, {}, {})
  {
  }

  lemma {:induction false} CompatibleInTurn(
    s: Exec, t: Exec, id: AccountId, pos: nat, fam: set<Binding>, at: set<Binding>, fam': set<Binding>, at': set<Binding>)
    requires Compatible(s, id, pos, fam, at) && Adds(s, t, id, pos, fam, at)
    ensures Compatible(t, id, pos, fam', at') <==> Compatible(s, id, pos, fam + fam', at + at')
  {
    if Compatible(t, id, pos, fam', at') {
      forall b, c | b in at + at' && c in at + at'
        ensures b == c
      {
        if at != {} {
          assert pos in t.boundPositions;
        }
      }
    }
    if at != {} {
      var a :| a in at;
      assert pos in t.boundPositions && t.boundPositions[pos] == a;
    }
  }

  lemma {:induction false} AddsInTurn(
    s: Exec, t: Exec, u: Exec, id: AccountId, pos: nat, fam: set<Binding>, at: set<Binding>, fam': set<Binding>, at': set<Binding>)
    requires Compatible(s, id, pos, fam, at) && Adds(s, t, id, pos, fam, at)
    requires Compatible(t, id, pos, fam', at') && Adds(t, u, id, pos, fam', at')
    ensures Adds(s, u, id, pos, fam + fam', at + at')
  {
    assert u.family.Keys == s.family.Keys + (fam + fam');
    assert u.boundPositions.Keys == s.boundPositions.Keys + (if at + at' == {} then {} else {pos});
    forall p | p in u.boundPositions
      ensures if p == pos && at + at' != {} then u.boundPositions[p] in at + at' else u.boundPositions[p] == s.boundPositions[p]
    {
      if p == pos && at' == {} && at != {} {
        assert u.boundPositions[p] == t.boundPositions[p];
      }
    }
  }

  lemma {:induction false} BindFamilyIff(s: Exec, b: Binding, id: AccountId, pos: nat)
    ensures BindFamily(s, b, id).Some? <==> Compatible(s, id, pos, {b}, {})
    ensures BindFamily(s, b, id).Some? ==> Adds(s, BindFamily(s, b, id).value, id, pos, {b}, {}) && SameJournal(s, BindFamily(s, b, id).value)
  {
  }

  lemma {:induction false} BindPositionIff(s: Exec, b: Binding, id: AccountId, pos: nat)
    ensures BindPosition(s, pos, b).Some? <==> Compatible(s, id, pos, {}, {b})
    ensures BindPosition(s, pos, b).Some? ==>
              Adds(s, BindPosition(s, pos, b).value, id, pos, {}, {b}) && SameJournal(s, BindPosition(s, pos, b).value)
  {
  }

  function FamilyThenPosition(s: Exec, b: Binding, id: AccountId, pos: nat): Option<Exec>
  {
    match BindFamily(s, b, id)
    case None => None
    case Some(t) => BindPosition(t, pos, b)
  }

  function PositionThenFamily(s: Exec, b: Binding, id: AccountId, pos: nat): Option<Exec>
  {
    match BindPosition(s, pos, b)
    case None => None
    case Some(t) => BindFamily(t, b, id)
  }

  lemma {:induction false} CompatibleParts(s: Exec, id: AccountId, pos: nat, b: Binding)
    ensures Compatible(s, id, pos, {b}, {b}) <==> Compatible(s, id, pos, {b}, {}) && Compatible(s, id, pos, {}, {b})
  {
  }

  /** Recording a binding for the account and for its place, in either order. */
  lemma {:induction false} BindBothIff(s: Exec, b: Binding, id: AccountId, pos: nat)
    ensures FamilyThenPosition(s, b, id, pos).Some? <==> Compatible(s, id, pos, {b}, {b})
    ensures FamilyThenPosition(s, b, id, pos).Some? ==>
              && Adds(s, FamilyThenPosition(s, b, id, pos).value, id, pos, {b}, {b})
              && SameJournal(s, FamilyThenPosition(s, b, id, pos).value)
    ensures PositionThenFamily(s, b, id, pos).Some? <==> Compatible(s, id, pos, {b}, {b})
    ensures PositionThenFamily(s, b, id, pos).Some? ==>
              && Adds(s, PositionThenFamily(s, b, id, pos).value, id, pos, {b}, {b})
              && SameJournal(s, PositionThenFamily(s, b, id, pos).value)
  {
    hide BindFamily, BindPosition, Compatible, Adds;
    BindFamilyIff(s, b, id, pos);
    BindPositionIff(s, b, id, pos);
    CompatibleParts(s, id, pos, b);
    assert {b} + {} == {b} && {} + {b} == {b};
    match BindFamily(s, b, id) {
      case None =>
      case Some(t) =>
        BindPositionIff(t, b, id, pos);
        CompatibleInTurn(s, t, id, pos, {b}, {}, {}, {b});
        if BindPosition(t, pos, b).Some? {
          AddsInTurn(s, t, BindPosition(t, pos, b).value, id, pos, {b}, {}, {}, {b});
        }
    }
    match BindPosition(s, pos, b) {
      case None =>
      case Some(t) =>
        BindFamilyIff(t, b, id, pos);
        CompatibleInTurn(s, t, id, pos, {}, {b}, {b}, {});
        if BindFamily(t, b, id).Some? {
          AddsInTurn(s, t, BindFamily(t, b, id).value, id, pos, {}, {b}, {b}, {});
        }
    }
  }

  // ---- one account of one call ----

  /** A call handling an account: the program, what its caller handed down, and the account before and after. */
  datatype Handling = Handling(
    program: ProgramId, caller: CallerData, seeds: seq<PdaSeed>, pre: AccountWithMetadata, post: AccountPostState)

  /** The binding the witness for a new account names. */
  function NamedBinding(ids: seq<InputAccountIdentity>, pos: nat, known: bool): set<Binding>
  {
    if !known && ExternalBinding(ids, pos).Some? then {ExternalBinding(ids, pos).value} else {}
  }

  /** The seed that grants the account: the first to derive it publicly, else privately. */
  function GrantBinding(x: Crypto, ids: seq<InputAccountIdentity>, pos: nat, h: Handling): set<Binding>
  {
    var public := MatchPublic(x, h.caller, h.seeds, h.pre.accountId);
    if public.Some? then {public.value} else PrivateGrant(x, ids, pos, h)
  }

  /** The seed that grants it privately, if none does publicly. */
  function PrivateGrant(x: Crypto, ids: seq<InputAccountIdentity>, pos: nat, h: Handling): set<Binding>
  {
    var private := MatchPrivate(x, PdaKeysAt(x, ids, pos), h.caller, h.seeds, h.pre.accountId);
    if MatchPublic(x, h.caller, h.seeds, h.pre.accountId).None? && private.Some? then {private.value} else {}
  }

  function ClaimBinding(h: Handling): set<Binding>
  {
    if h.post.claim.Some? && h.post.claim.value.PdaClaim? then {Binding(h.program, h.post.claim.value.seed)} else {}
  }

  function PrivateClaim(ids: seq<InputAccountIdentity>, pos: nat, h: Handling): set<Binding>
  {
    if pos < |ids| && ids[pos].PrivateIdentity? then ClaimBinding(h) else {}
  }

  predicate SeedGrants(x: Crypto, ids: seq<InputAccountIdentity>, pos: nat, h: Handling)
  {
    || MatchPublic(x, h.caller, h.seeds, h.pre.accountId).Some?
    || MatchPrivate(x, PdaKeysAt(x, ids, pos), h.caller, h.seeds, h.pre.accountId).Some?
  }

  lemma {:induction false} AuthorizationIff(x: Crypto, ids: seq<InputAccountIdentity>, s: Exec, h: Handling, pos: nat)
    ensures var r, id := CheckAuthorization(x, ids, s, h.caller, h.seeds, h.pre.accountId, pos, h.pre.isAuthorized), h.pre.accountId;
            && (r.Some? <==> && Compatible(s, id, pos, GrantBinding(x, ids, pos, h), PrivateGrant(x, ids, pos, h))
                             && (h.pre.isAuthorized
                                 <==> SeedGrants(x, ids, pos, h) || id in s.globallyAuthorized || id in h.caller.authorizedAccounts))
            && (r.Some? ==> SameJournal(s, r.value) && Adds(s, r.value, id, pos, GrantBinding(x, ids, pos, h), PrivateGrant(x, ids, pos, h)))
  {
    hide Compatible, Adds, MatchPublic, MatchPrivate, BindFamily, BindPosition;
    var id := h.pre.accountId;
    var public := MatchPublic(x, h.caller, h.seeds, id);
    var private := MatchPrivate(x, PdaKeysAt(x, ids, pos), h.caller, h.seeds, id);
    if public.Some? {
      BindFamilyIff(s, public.value, id, pos);
    } else if private.Some? {
      BindBothIff(s, private.value, id, pos);
    } else {
      AddsNothing(s, id, pos);
    }
  }

  /** The witness of a new private program-derived account may name a binding, which must derive it. */
  predicate NamedDerives(x: Crypto, ids: seq<InputAccountIdentity>, pos: nat, id: AccountId)
  {
    ExternalBinding(ids, pos).Some? ==>
      PdaKeysAt(x, ids, pos).Some? && x.privatePda(ExternalBinding(ids, pos).value, PdaKeysAt(x, ids, pos).value) == id
  }

  lemma {:induction false} ExternalIff(x: Crypto, ids: seq<InputAccountIdentity>, s: Exec, id: AccountId, pos: nat)
    ensures var r, named := BindExternal(x, ids, s, id, pos), NamedBinding(ids, pos, false);
            && (r.Some? <==> NamedDerives(x, ids, pos, id) && Compatible(s, id, pos, named, named))
            && (r.Some? ==> SameJournal(s, r.value) && Adds(s, r.value, id, pos, named, named))
  {
    hide Compatible, Adds, BindFamily, BindPosition;
    match ExternalBinding(ids, pos)
    case None => AddsNothing(s, id, pos);
    case Some(b) => BindBothIff(s, b, id, pos);
  }

  /** The claim on the account, if any, is allowed: the account has no owner; a public one is presented as
      authorized or derived by the claimed seed; a private one may be claimed as it is, or by a seed that
      derives it from its keys. */
  ghost predicate ClaimAllowed(x: Crypto, ids: seq<InputAccountIdentity>, pos: nat, h: Handling)
  {
    h.post.claim.Some? ==>
      && h.post.account.programOwner == DEFAULT_PROGRAM_OWNER && pos < |ids|
      && match h.post.claim.value
         case AuthorizedClaim => ids[pos].PublicIdentity? ==> h.pre.isAuthorized
         case PdaClaim(seed) =>
           if ids[pos].PublicIdentity? then x.publicPda(Binding(h.program, seed)) == h.pre.accountId
           else
             && ids[pos].evidence.kind.Pda?
             && x.privatePda(Binding(h.program, seed), WitnessKeys(x, ids[pos].evidence)) == h.pre.accountId
  }

  lemma {:induction false} ClaimIff(x: Crypto, ids: seq<InputAccountIdentity>, s: Exec, h: Handling, pos: nat)
    requires PositionIn(s.preStates, h.pre.accountId) == Some(pos)
    ensures var r, id := CheckClaim(x, ids, s, h.program, h.pre, h.post), h.pre.accountId;
            && (r.Some? <==> ClaimAllowed(x, ids, pos, h) && Compatible(s, id, pos, ClaimBinding(h), PrivateClaim(ids, pos, h)))
            && (r.Some? ==> SameJournal(s, r.value) && Adds(s, r.value, id, pos, ClaimBinding(h), PrivateClaim(ids, pos, h)))
  {
    hide Compatible, Adds, BindFamily, BindPosition, PositionIn;
    var id := h.pre.accountId;
    AddsNothing(s, id, pos);
    if h.post.claim.Some? && h.post.claim.value.PdaClaim? {
      var b := Binding(h.program, h.post.claim.value.seed);
      BindFamilyIff(s, b, id, pos);
      BindBothIff(s, b, id, pos);
    }
  }

  // ---- admission and claim together ----

  /** Everything handling the account resolves to it. */
  function ResolvedBy(x: Crypto, ids: seq<InputAccountIdentity>, pos: nat, known: bool, h: Handling): set<Binding>
  {
    NamedBinding(ids, pos, known) + GrantBinding(x, ids, pos, h) + ClaimBinding(h)
  }

  /** Everything handling the account binds its place to. */
  function PlacedBy(x: Crypto, ids: seq<InputAccountIdentity>, pos: nat, known: bool, h: Handling): set<Binding>
  {
    NamedBinding(ids, pos, known) + PrivateGrant(x, ids, pos, h) + PrivateClaim(ids, pos, h)
  }

  /** The account is presented as authorized as it must be. One already known, or a private
      program-derived one, exactly if a seed grants it, it is authorized for good, or the caller had it;
      another new one at least if a seed grants it. */
  ghost predicate AuthorityRight(
    x: Crypto, ids: seq<InputAccountIdentity>, free: bool, pos: nat, known: bool, h: Handling)
  {
    if known || PdaKeysAt(x, ids, pos).Some? then
      h.pre.isAuthorized <==> SeedGrants(x, ids, pos, h) || free || h.pre.accountId in h.caller.authorizedAccounts
    else MatchPublic(x, h.caller, h.seeds, h.pre.accountId).Some? ==> h.pre.isAuthorized
  }

  /** The journal entry of a new account: a public grant does not make it authorized. */
  function EntryFor(x: Crypto, ids: seq<InputAccountIdentity>, pos: nat, h: Handling): AccountWithMetadata
  {
    h.pre.(isAuthorized := h.pre.isAuthorized
                           && (PdaKeysAt(x, ids, pos).Some? || MatchPublic(x, h.caller, h.seeds, h.pre.accountId).None?))
  }

  function PlaceOf(pres: seq<AccountWithMetadata>, id: AccountId): nat
  {
    if PositionIn(pres, id).Some? then PositionIn(pres, id).value else |pres|
  }

  /** What admission leaves of journal and standing authorizations. */
  ghost predicate Journaled(x: Crypto, ids: seq<InputAccountIdentity>, s: Exec, t: Exec, h: Handling)
  {
    && t.postStates == s.postStates
    && if h.pre.accountId in s.postStates then t.preStates == s.preStates && t.globallyAuthorized == s.globallyAuthorized
       else
         var e := EntryFor(x, ids, |s.preStates|, h);
         && t.preStates == s.preStates + [e]
         && t.globallyAuthorized
            == s.globallyAuthorized + if e.isAuthorized && PdaKeysAt(x, ids, |s.preStates|).None? then {h.pre.accountId} else {}
  }

  lemma {:induction false} KeylessIsUnbound(x: Crypto, ids: seq<InputAccountIdentity>, pos: nat, h: Handling)
    requires PdaKeysAt(x, ids, pos).None?
    ensures NamedBinding(ids, pos, false) == {} && PrivateGrant(x, ids, pos, h) == {} && ExternalBinding(ids, pos).None?
    ensures GrantBinding(x, ids, pos, h)
            == if MatchPublic(x, h.caller, h.seeds, h.pre.accountId).Some? then {MatchPublic(x, h.caller, h.seeds, h.pre.accountId).value}
               else {}
  {
  }

  /** An account without keys, seen for the first time. */
  lemma {:induction false} KeylessSightIff(x: Crypto, ids: seq<InputAccountIdentity>, s: Exec, h: Handling)
    requires PdaKeysAt(x, ids, |s.preStates|).None? && h.pre.accountId !in s.postStates
    ensures var r, id, pos := FirstSight(x, ids, s, h.caller, h.seeds, h.pre), h.pre.accountId, |s.preStates|;
            var named, grant, private := NamedBinding(ids, pos, false), GrantBinding(x, ids, pos, h), PrivateGrant(x, ids, pos, h);
            && NamedDerives(x, ids, pos, id)
            && (r.Some? <==> Compatible(s, id, pos, named + grant, named + private)
                             && AuthorityRight(x, ids, h.pre.accountId in s.globallyAuthorized, pos, false, h))
            && (r.Some? ==> Adds(s, r.value, id, pos, named + grant, named + private) && Journaled(x, ids, s, r.value, h))
  {
    var id, pos := h.pre.accountId, |s.preStates|;
    KeylessIsUnbound(x, ids, pos, h);
    hide Compatible, Adds, MatchPublic, MatchPrivate, BindFamily, NamedBinding, GrantBinding, PrivateGrant;
    AddsNothing(s, id, pos);
    match MatchPublic(x, h.caller, h.seeds, id)
    case None => SameBindings(s, Journal(if h.pre.isAuthorized then s.(globallyAuthorized := s.globallyAuthorized + {id}) else s, h.pre), id, pos);
    case Some(b) =>
      BindFamilyIff(s, b, id, pos);
      assert {} + {b} == {b};
      if BindFamily(s, b, id).Some? {
        var u := BindFamily(s, b, id).value;
        AddsJournal(s, u, Journal(u, h.pre.(isAuthorized := false)), id, pos, {b}, {});
      }
  }

  lemma {:induction false} SameBindings(s: Exec, t: Exec, id: AccountId, pos: nat)
    requires t.family == s.family && t.boundPositions == s.boundPositions
    ensures Adds(s, t, id, pos, {}, {})
  {
  }

  lemma {:induction false} AddsJournal(s: Exec, t: Exec, u: Exec, id: AccountId, pos: nat, fam: set<Binding>, at: set<Binding>)
    requires Adds(s, t, id, pos, fam, at) && u.family == t.family && u.boundPositions == t.boundPositions
    ensures Adds(s, u, id, pos, fam, at)
  {
  }

  /** A private program-derived account seen for the first time. */
  lemma {:induction false} KeyedSightIff(x: Crypto, ids: seq<InputAccountIdentity>, s: Exec, h: Handling)
    requires PdaKeysAt(x, ids, |s.preStates|).Some? && h.pre.accountId !in s.postStates
    ensures var r, id, pos := FirstSight(x, ids, s, h.caller, h.seeds, h.pre), h.pre.accountId, |s.preStates|;
            var named, grant, private := NamedBinding(ids, pos, false), GrantBinding(x, ids, pos, h), PrivateGrant(x, ids, pos, h);
            && (r.Some? <==> && NamedDerives(x, ids, pos, id)
                             && Compatible(s, id, pos, named + grant, named + private)
                             && AuthorityRight(x, ids, h.pre.accountId in s.globallyAuthorized, pos, false, h))
            && (r.Some? ==> Adds(s, r.value, id, pos, named + grant, named + private) && Journaled(x, ids, s, r.value, h))
  {
    var id, pos := h.pre.accountId, |s.preStates|;
    var named, grant, private := NamedBinding(ids, pos, false), GrantBinding(x, ids, pos, h), PrivateGrant(x, ids, pos, h);
    hide Compatible, Adds, MatchPublic, MatchPrivate, NamedBinding, GrantBinding, PrivateGrant, CheckAuthorization, BindExternal;
    hide SeedGrants, NamedDerives, Journaled, EntryFor;
    ExternalIff(x, ids, s, id, pos);
    CompatibleWithPart(s, id, pos, named, named, grant, private);
    if BindExternal(x, ids, s, id, pos).Some? {
      var t := BindExternal(x, ids, s, id, pos).value;
      AuthorizationIff(x, ids, t, h, pos);
      CompatibleInTurn(s, t, id, pos, named, named, grant, private);
      var r := CheckAuthorization(x, ids, t, h.caller, h.seeds, id, pos, h.pre.isAuthorized);
      if r.Some? {
        AddsInTurn(s, t, r.value, id, pos, named, named, grant, private);
        AddsJournal(s, r.value, Journal(r.value, h.pre), id, pos, named + grant, named + private);
        KeyedIsJournaled(x, ids, s, r.value, h);
      }
    }
  }

  lemma {:induction false} KeyedIsJournaled(x: Crypto, ids: seq<InputAccountIdentity>, s: Exec, t: Exec, h: Handling)
    requires PdaKeysAt(x, ids, |s.preStates|).Some? && h.pre.accountId !in s.postStates && SameJournal(s, t)
    ensures Journaled(x, ids, s, Journal(t, h.pre), h)
  {
    hide MatchPublic;
  }

  lemma {:induction false} CompatibleWithPart(
    s: Exec, id: AccountId, pos: nat, fam: set<Binding>, at: set<Binding>, fam': set<Binding>, at': set<Binding>)
    ensures Compatible(s, id, pos, fam + fam', at + at') ==> Compatible(s, id, pos, fam, at)
  {
  }

  /** Exactly when an account is admitted to the transaction, and what is then on record. */
  lemma {:induction false} AdmitIff(x: Crypto, ids: seq<InputAccountIdentity>, s: Exec, h: Handling)
    requires h.pre.accountId in s.postStates <==> PositionIn(s.preStates, h.pre.accountId).Some?
    ensures var r, id := Admit(x, ids, s, h.caller, h.seeds, h.pre), h.pre.accountId;
            var known, pos := id in s.postStates, PlaceOf(s.preStates, id);
            var named, grant, private := NamedBinding(ids, pos, known), GrantBinding(x, ids, pos, h), PrivateGrant(x, ids, pos, h);
            && (r.Some? <==> && (known ==> h.pre.account == s.postStates[id])
                             && (!known ==> NamedDerives(x, ids, pos, id))
                             && AuthorityRight(x, ids, h.pre.accountId in s.globallyAuthorized, pos, known, h)
                             && Compatible(s, id, pos, named + grant, named + private))
            && (r.Some? ==> Adds(s, r.value, id, pos, named + grant, named + private) && Journaled(x, ids, s, r.value, h))
  {
    var id := h.pre.accountId;
    var pos := PlaceOf(s.preStates, id);
    hide Compatible, Adds, MatchPublic, MatchPrivate, GrantBinding, PrivateGrant, CheckAuthorization, FirstSight, PositionIn, SeedGrants;
    hide NamedDerives, EntryFor;
    if id in s.postStates {
      AuthorizationIff(x, ids, s, h, pos);
      assert {} + GrantBinding(x, ids, pos, h) == GrantBinding(x, ids, pos, h);
      assert {} + PrivateGrant(x, ids, pos, h) == PrivateGrant(x, ids, pos, h);
    } else if PdaKeysAt(x, ids, pos).Some? {
      KeyedSightIff(x, ids, s, h);
    } else {
      KeylessSightIff(x, ids, s, h);
    }
  }

  /** Handling the account is allowed: it is as last left, its authority is right, a binding its witness
      names derives it, a claim on it is allowed, and no binding contradicts the record. */
  ghost predicate Allowed(x: Crypto, ids: seq<InputAccountIdentity>, s: Exec, h: Handling)
  {
    var id := h.pre.accountId;
    var known, pos := id in s.postStates, PlaceOf(s.preStates, id);
    && (known ==> h.pre.account == s.postStates[id])
    && (!known ==> NamedDerives(x, ids, pos, id))
    && AuthorityRight(x, ids, h.pre.accountId in s.globallyAuthorized, pos, known, h)
    && ClaimAllowed(x, ids, pos, h)
    && Compatible(s, id, pos, ResolvedBy(x, ids, pos, known, h), PlacedBy(x, ids, pos, known, h))
  }

  /** What is on record after an account has been handled. */
  ghost predicate Handled(x: Crypto, ids: seq<InputAccountIdentity>, s: Exec, t: Exec, h: Handling)
  {
    var id := h.pre.accountId;
    var known, pos := id in s.postStates, PlaceOf(s.preStates, id);
    && Journaled(x, ids, s, t.(postStates := s.postStates), h)
    && t.postStates == s.postStates[id := Settled(h.program, h.post)]
    && Adds(s, t, id, pos, ResolvedBy(x, ids, pos, known, h), PlacedBy(x, ids, pos, known, h))
  }

  lemma {:induction false} PlaceAfter(x: Crypto, ids: seq<InputAccountIdentity>, s: Exec, t: Exec, h: Handling)
    requires h.pre.accountId in s.postStates <==> PositionIn(s.preStates, h.pre.accountId).Some?
    requires Journaled(x, ids, s, t, h)
    ensures PositionIn(t.preStates, h.pre.accountId) == Some(PlaceOf(s.preStates, h.pre.accountId))
  {
    if h.pre.accountId !in s.postStates {
      hide PositionIn;
      PositionOfLast(s.preStates, EntryFor(x, ids, |s.preStates|, h));
    }
  }

  /** A call may leave an account as it says exactly if that is allowed. */
  lemma {:induction false} HandleIff(x: Crypto, ids: seq<InputAccountIdentity>, s: Exec, h: Handling)
    requires h.pre.accountId in s.postStates <==> PositionIn(s.preStates, h.pre.accountId).Some?
    ensures var r := SyncOne(x, ids, s, h.program, h.caller, h.seeds, h.pre, h.post);
            (r.Some? <==> Allowed(x, ids, s, h)) && (r.Some? ==> Handled(x, ids, s, r.value, h))
  {
    var id := h.pre.accountId;
    var known, pos := id in s.postStates, PlaceOf(s.preStates, id);
    var named, grant, private := NamedBinding(ids, pos, known), GrantBinding(x, ids, pos, h), PrivateGrant(x, ids, pos, h);
    var claim, place := ClaimBinding(h), PrivateClaim(ids, pos, h);
    hide Compatible, Adds, NamedBinding, GrantBinding, PrivateGrant, ClaimBinding, PrivateClaim, Admit, CheckClaim;
    hide PlaceOf, NamedDerives, AuthorityRight, ClaimAllowed, Journaled, EntryFor;
    AdmitIff(x, ids, s, h);
    CompatibleWithPart(s, id, pos, named + grant, named + private, claim, place);
    var r := Admit(x, ids, s, h.caller, h.seeds, h.pre);
    if r.Some? {
      PlaceAfter(x, ids, s, r.value, h);
      ClaimIff(x, ids, r.value, h, pos);
      CompatibleInTurn(s, r.value, id, pos, named + grant, named + private, claim, place);
      var u := CheckClaim(x, ids, r.value, h.program, h.pre, h.post);
      if u.Some? {
        AddsInTurn(s, r.value, u.value, id, pos, named + grant, named + private, claim, place);
        HandledFrom(x, ids, s, r.value, u.value, h);
      }
    }
  }

  lemma {:induction false} HandledFrom(x: Crypto, ids: seq<InputAccountIdentity>, s: Exec, t: Exec, u: Exec, h: Handling)
    requires Journaled(x, ids, s, t, h) && SameJournal(t, u)
    requires var known, pos := h.pre.accountId in s.postStates, PlaceOf(s.preStates, h.pre.accountId);
             Adds(s, u, h.pre.accountId, pos, ResolvedBy(x, ids, pos, known, h), PlacedBy(x, ids, pos, known, h))
    ensures Handled(x, ids, s, u.(postStates := u.postStates[h.pre.accountId := Settled(h.program, h.post)]), h)
  {
    var id := h.pre.accountId;
    var known, pos := id in s.postStates, PlaceOf(s.preStates, id);
    var fam, at := ResolvedBy(x, ids, pos, known, h), PlacedBy(x, ids, pos, known, h);
    hide Adds, ResolvedBy, PlacedBy, PlaceOf, EntryFor;
    AddsJournal(s, u, u.(postStates := u.postStates[id := Settled(h.program, h.post)]), id, pos, fam, at);
  }
}
