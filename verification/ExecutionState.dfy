/** The circuit's mutable execution state, in the form of the original
    (`lee/privacy_preserving_circuit/src/execution_state.rs`). Methods answer `false` or `None` where
    the original panics. */
module ExecutionStates {
  import opened Prelude
  import opened LedgerState
  import opened Programs
  import opened Execution
  import opened CallTrees
  import opened Derivation

  class ExecutionState {
    const crypto: Crypto
    const identities: seq<InputAccountIdentity>
    const blockWindow: ValidityWindow
    const timestampWindow: ValidityWindow

    var preStates: seq<AccountWithMetadata>
    var postStates: map<AccountId, Account>
    var boundPositions: map<nat, Binding>
    var family: map<Binding, AccountId>
    var privatePdaByPosition: map<nat, Keys>
    var globallyAuthorized: set<AccountId>

    ghost function Value(): Exec
      reads this
    {
      Exec(preStates, postStates, boundPositions, family, globallyAuthorized)
    }

    /** The position map holds the keys of exactly the private-PDA identities. */
    ghost predicate Valid()
      reads this
    {
      forall pos: nat ::
        PdaKeysAt(crypto, identities, pos) == if pos in privatePdaByPosition then Some(privatePdaByPosition[pos]) else None
    }

    function KeysAt(pos: nat): (k: Option<Keys>)
      requires Valid()
      reads this
      ensures k == PdaKeysAt(crypto, identities, pos)
    {
      if pos in privatePdaByPosition then Some(privatePdaByPosition[pos]) else None
    }

    constructor (crypto: Crypto, identities: seq<InputAccountIdentity>, blockWindow: ValidityWindow, timestampWindow: ValidityWindow)
      ensures Valid() && Value() == EMPTY_EXEC
      ensures this.crypto == crypto && this.identities == identities
      ensures this.blockWindow == blockWindow && this.timestampWindow == timestampWindow
    {
      this.crypto, this.identities := crypto, identities;
      this.blockWindow, this.timestampWindow := blockWindow, timestampWindow;
      preStates, postStates, boundPositions, family := [], map[], map[], map[];
      privatePdaByPosition, globallyAuthorized := map[], {};
      new;
      for pos := 0 to |identities|
        invariant Value() == EMPTY_EXEC
        invariant forall p: nat :: (if p in privatePdaByPosition then Some(privatePdaByPosition[p]) else None)
                                   == if p < pos then PdaKeysAt(crypto, identities, p) else None
      {
        if IsPrivatePda(identities[pos]) {
          privatePdaByPosition := privatePdaByPosition[pos := WitnessKeys(crypto, identities[pos].evidence)];
        }
      }
    }

    /** `assert_family_binding`. */
    method AssertFamilyBinding(b: Binding, id: AccountId) returns (ok: bool)
      modifies this`family
      ensures if ok then Some(Value()) == BindFamily(old(Value()), b, id) else BindFamily(old(Value()), b, id).None?
    {
      if b in family {
        ok := family[b] == id;
        assert ok ==> family[b := id] == family;
      } else {
        family := family[b := id];
        ok := true;
      }
    }

    /** `bind_private_pda_position`. */
    method BindPrivatePdaPosition(pos: nat, b: Binding) returns (ok: bool)
      modifies this`boundPositions
      ensures if ok then Some(Value()) == BindPosition(old(Value()), pos, b) else BindPosition(old(Value()), pos, b).None?
    {
      if pos in boundPositions {
        ok := boundPositions[pos] == b;
        assert ok ==> boundPositions[pos := b] == boundPositions;
      } else {
        boundPositions := boundPositions[pos := b];
        ok := true;
      }
    }

    method AssertAuthorizationAndRecordBindings(
      caller: CallerData, seeds: seq<PdaSeed>, id: AccountId, pos: nat, isAuthorized: bool)
      returns (ok: bool)
      requires Valid()
      modifies this`family, this`boundPositions
      ensures Valid()
      ensures var spec := CheckAuthorization(crypto, identities, old(Value()), caller, seeds, id, pos, isAuthorized);
              if ok then Some(Value()) == spec else spec.None?
    {
      var authorized := id in globallyAuthorized || id in caller.authorizedAccounts;
      var public := MatchPublic(crypto, caller, seeds, id);
      if public.Some? {
        authorized := true;
        ok := AssertFamilyBinding(public.value, id);
        if !ok {
          return;
        }
      } else {
        var private := MatchPrivate(crypto, KeysAt(pos), caller, seeds, id);
        if private.Some? {
          authorized := true;
          ok := AssertFamilyBinding(private.value, id);
          if !ok {
            return;
          }
          ok := BindPrivatePdaPosition(pos, private.value);
          if !ok {
            return;
          }
        }
      }
      ok := isAuthorized == authorized;
    }

    /** `authorize_first_sight_without_pda_witness`: says whether the journal entry is masked. */
    method AuthorizeFirstSight(caller: CallerData, seeds: seq<PdaSeed>, id: AccountId, isAuthorized: bool)
      returns (ok: bool, masked: bool)
      modifies this`family, this`globallyAuthorized
      ensures var public := MatchPublic(crypto, caller, seeds, id);
              && masked == public.Some?
              && if public.Some? then
                   if ok then isAuthorized && Some(Value()) == BindFamily(old(Value()), public.value, id)
                   else !isAuthorized || BindFamily(old(Value()), public.value, id).None?
                 else
                   ok && Value() == if isAuthorized then old(Value()).(globallyAuthorized := old(globallyAuthorized) + {id})
                                    else old(Value())
    {
      var public := MatchPublic(crypto, caller, seeds, id);
      masked := public.Some?;
      if masked {
        if !isAuthorized {
          return false, masked;
        }
        ok := AssertFamilyBinding(public.value, id);
      } else {
        if isAuthorized {
          globallyAuthorized := globallyAuthorized + {id};
        }
        ok := true;
      }
    }

    /** First sight of an account: external binding, authorization, journal entry. */
    method SeeFirst(caller: CallerData, seeds: seq<PdaSeed>, pre: AccountWithMetadata) returns (ok: bool)
      requires Valid() && pre.accountId !in postStates
      modifies this`family, this`boundPositions, this`globallyAuthorized, this`preStates
      ensures Valid()
      ensures var spec := FirstSight(crypto, identities, old(Value()), caller, seeds, pre);
              if ok then Some(Value()) == spec else spec.None?
    {
      var pos := |preStates|;
      var external := ExternalBinding(identities, pos);
      var keys := KeysAt(pos);
      if external.Some? {
        if crypto.privatePda(external.value, keys.value) != pre.accountId {
          return false;
        }
        ok := BindPrivatePdaPosition(pos, external.value);
        if !ok {
          return;
        }
        ok := AssertFamilyBinding(external.value, pre.accountId);
        if !ok {
          return;
        }
      }
      ghost var bound := Value();
      assert BindExternal(crypto, identities, old(Value()), pre.accountId, pos) == Some(bound);
      var entry := pre;
      if keys.Some? {
        ok := AssertAuthorizationAndRecordBindings(caller, seeds, pre.accountId, pos, pre.isAuthorized);
      } else {
        var masked;
        ok, masked := AuthorizeFirstSight(caller, seeds, pre.accountId, pre.isAuthorized);
        if masked {
          entry := pre.(isAuthorized := false);
        }
      }
      if ok {
        preStates := preStates + [entry];
      }
    }

    /** The claim of a post state, if it makes one. */
    method HonourClaim(program: ProgramId, pre: AccountWithMetadata, post: AccountPostState) returns (ok: bool)
      requires Valid()
      modifies this`family, this`boundPositions
      ensures Valid()
      ensures var spec := CheckClaim(crypto, identities, old(Value()), program, pre, post);
              if ok then Some(Value()) == spec else spec.None?
    {
      if post.claim.None? {
        return true;
      }
      var position := PositionIn(preStates, pre.accountId);
      if post.account.programOwner != DEFAULT_PROGRAM_OWNER || position.None? || position.value >= |identities| {
        return false;
      }
      var pos := position.value;
      match post.claim.value
      case AuthorizedClaim => ok := !identities[pos].PublicIdentity? || pre.isAuthorized;
      case PdaClaim(seed) =>
        var b := Binding(program, seed);
        if identities[pos].PublicIdentity? {
          if crypto.publicPda(b) != pre.accountId {
            return false;
          }
        } else {
          var keys := KeysAt(pos);
          if keys.None? || crypto.privatePda(b, keys.value) != pre.accountId {
            return false;
          }
          ok := BindPrivatePdaPosition(pos, b);
          if !ok {
            return;
          }
        }
        ok := AssertFamilyBinding(b, pre.accountId);
    }

    /** One pre and post state of a call. */
    method SyncPair(
      program: ProgramId, caller: CallerData, seeds: seq<PdaSeed>, pre: AccountWithMetadata, post: AccountPostState)
      returns (ok: bool)
      requires Valid()
      modifies this
      ensures Valid()
      ensures var spec := SyncOne(crypto, identities, old(Value()), program, caller, seeds, pre, post);
              if ok then Some(Value()) == spec else spec.None?
      ensures privatePdaByPosition == old(privatePdaByPosition)
    {
      hide FirstSight, CheckAuthorization, CheckClaim;
      if pre.accountId in postStates {
        if postStates[pre.accountId] != pre.account {
          return false;
        }
        var position := PositionIn(preStates, pre.accountId);
        if position.None? {
          return false;
        }
        ok := AssertAuthorizationAndRecordBindings(caller, seeds, pre.accountId, position.value, pre.isAuthorized);
      } else {
        ok := SeeFirst(caller, seeds, pre);
      }
      if !ok {
        return;
      }
      ok := HonourClaim(program, pre, post);
      if !ok {
        return;
      }
      postStates := postStates[pre.accountId := if post.claim.Some? then post.account.(programOwner := program) else post.account];
    }

    /** `validate_and_sync_states`: gives the accounts authorized for the calls this one makes. */
    method ValidateAndSyncStates(
      program: ProgramId, caller: CallerData, seeds: seq<PdaSeed>, pres: seq<AccountWithMetadata>, posts: seq<AccountPostState>)
      returns (authorized: Option<set<AccountId>>)
      requires Valid() && |pres| == |posts|
      modifies this
      ensures Valid()
      ensures var spec := SyncUpTo(crypto, identities, old(Value()), program, caller, seeds, pres, posts, |pres|);
              if authorized.Some? then Some(Value()) == spec && authorized.value == caller.authorizedAccounts + AuthorizedIn(pres)
              else spec.None?
    {
      hide SyncOne;
      var seen: set<AccountId> := {};
      for i := 0 to |pres|
        invariant Valid()
        invariant SyncUpTo(crypto, identities, old(Value()), program, caller, seeds, pres, posts, i) == Some(Value())
        invariant seen == AuthorizedIn(pres[..i])
      {
        var ok := SyncPair(program, caller, seeds, pres[i], posts[i]);
        if !ok {
          RejectionIsFinal(crypto, identities, old(Value()), program, caller, seeds, pres, posts, i + 1, |pres|);
          return None;
        }
        AuthorizedInSnoc(pres, i);
        if pres[i].isAuthorized {
          seen := seen + {pres[i].accountId};
        }
      }
      assert pres[..|pres|] == pres;
      authorized := Some(caller.authorizedAccounts + seen);
    }
  }

  lemma {:induction false} AuthorizedInSnoc(pres: seq<AccountWithMetadata>, i: nat)
    requires i < |pres|
    ensures AuthorizedIn(pres[..i + 1]) == AuthorizedIn(pres[..i]) + if pres[i].isAuthorized then {pres[i].accountId} else {}
  {
    assert pres[..i + 1] == pres[..i] + [pres[i]];
    forall id | id in AuthorizedIn(pres[..i])
      ensures id in AuthorizedIn(pres[..i + 1])
    {
      var k :| 0 <= k < i && pres[..i][k].isAuthorized && pres[..i][k].accountId == id;
      assert pres[..i + 1][k] == pres[..i][k];
    }
    if pres[i].isAuthorized {
      assert pres[..i + 1][i].isAuthorized && pres[..i + 1][i].accountId == pres[i].accountId;
    }
  }

  lemma {:induction false} RejectionIsFinal(
    x: Crypto, ids: seq<InputAccountIdentity>, s: Exec, program: ProgramId, caller: CallerData, seeds: seq<PdaSeed>,
    pres: seq<AccountWithMetadata>, posts: seq<AccountPostState>, m: nat, n: nat)
    requires m <= n <= |pres| && n <= |posts|
    requires SyncUpTo(x, ids, s, program, caller, seeds, pres, posts, m).None?
    ensures SyncUpTo(x, ids, s, program, caller, seeds, pres, posts, n).None?
    decreases n
  {
    hide SyncOne;
    if m < n {
      RejectionIsFinal(x, ids, s, program, caller, seeds, pres, posts, m, n - 1);
    }
  }

  /** The calls an output makes, pushed in reverse in front of the pending ones. */
  method PushCalls(
    frame: Frame, out: ProgramOutput, authorized: set<AccountId>, pending: seq<Frame>) returns (stack: seq<Frame>)
    requires authorized == frame.caller.authorizedAccounts + AuthorizedIn(out.preStates)
    ensures stack == ChildFrames(frame, out) + pending
  {
    stack := pending;
    ghost var children := ChildFrames(frame, out);
    var k := |out.chainedCalls|;
    while k > 0
      invariant 0 <= k <= |out.chainedCalls|
      invariant stack == children[k..] + pending
    {
      k := k - 1;
      var next := Frame(out.chainedCalls[k], CallerData(Some(frame.call.programId), authorized));
      assert children[k..] == [next] + children[k + 1..];
      stack := [next] + stack;
    }
  }

  /** `derive_from_outputs`: runs the worklist and the final checks. */
  method DeriveFromOutputs(x: Crypto, ids: seq<InputAccountIdentity>, program: ProgramId, outputs: seq<ProgramOutput>)
    returns (r: Option<ExecutionState>)
    ensures r.Some? <==> Derive(x, ids, program, outputs).Some?
    ensures r.Some? ==> fresh(r.value)
                        && Derived(r.value.Value(), r.value.blockWindow, r.value.timestampWindow) == Derive(x, ids, program, outputs).value
  {
    hide Work, CommonWindow, AllPdasBound, AllModifiedClaimed;
    var blocks, stamps := CommonWindow(BlockWindows(outputs)), CommonWindow(TimestampWindows(outputs));
    if blocks.None? || stamps.None? || outputs == [] {
      return None;
    }
    var state := new ExecutionState(x, ids, blocks.value, stamps.value);
    var accepted := RunCalls(state, [RootFrame(program, outputs[0])], outputs);
    if !accepted {
      return None;
    }
    var bound := CheckPdasBound(state);
    if !bound {
      return None;
    }
    var claimed := CheckModifiedClaimed(state);
    r := if claimed then Some(state) else None;
  }

  method CheckPdasBound(state: ExecutionState) returns (ok: bool)
    ensures ok == AllPdasBound(state.identities, state.Value())
  {
    for pos := 0 to |state.identities|
      invariant forall p :: 0 <= p < pos && IsPrivatePda(state.identities[p]) ==> p in state.boundPositions
    {
      if IsPrivatePda(state.identities[pos]) && pos !in state.boundPositions {
        return false;
      }
    }
    ok := true;
  }

  method CheckModifiedClaimed(state: ExecutionState) returns (ok: bool)
    ensures ok == AllModifiedClaimed(state.Value())
  {
    for i := 0 to |state.preStates|
      invariant forall k :: 0 <= k < i ==> ModifiedIsClaimed(state.Value(), k)
    {
      var pre := state.preStates[i];
      if pre.account.programOwner == DEFAULT_PROGRAM_OWNER {
        if pre.accountId !in state.postStates {
          assert !ModifiedIsClaimed(state.Value(), i);
          return false;
        }
        var post := state.postStates[pre.accountId];
        if post != pre.account && post.programOwner == DEFAULT_PROGRAM_OWNER {
          assert !ModifiedIsClaimed(state.Value(), i);
          return false;
        }
      }
    }
    ok := true;
  }

  /** The worklist loop. */
  method RunCalls(state: ExecutionState, calls: seq<Frame>, outputs: seq<ProgramOutput>) returns (accepted: bool)
    requires state.Valid()
    modifies state
    ensures state.Valid()
    ensures var spec := Work(state.crypto, state.identities, old(state.Value()), calls, outputs, 0);
            if accepted then Some(state.Value()) == spec else spec.None?
  {
    hide SyncUpTo, ExecutionVerdict;
    var stack, consumed := calls, 0;
    while stack != []
      invariant state.Valid() && consumed <= |outputs|
      invariant Work(state.crypto, state.identities, old(state.Value()), calls, outputs, 0)
                == Work(state.crypto, state.identities, state.Value(), stack, outputs[consumed..], consumed)
      decreases |outputs| - consumed, |stack|
    {
      if consumed > MAX_NUMBER_CHAINED_CALLS || consumed == |outputs| {
        return false;
      }
      var frame, out := stack[0], outputs[consumed];
      assert outputs[consumed..][0] == out && outputs[consumed..][1..] == outputs[consumed + 1..];
      if || out.instructionData != frame.call.instructionData
         || !state.crypto.verify(frame.call.programId, out)
         || out.selfProgramId != frame.call.programId
         || out.callerProgramId != frame.caller.programId
      {
        return false;
      }
      var fault := ValidateExecution(out.preStates, out.postStates, frame.call.programId);
      if fault.Some? {
        return false;
      }
      VerdictLengths(out.preStates, out.postStates, frame.call.programId);
      var authorized := state.ValidateAndSyncStates(frame.call.programId, frame.caller, frame.call.pdaSeeds, out.preStates, out.postStates);
      if authorized.None? {
        return false;
      }
      stack := PushCalls(frame, out, authorized.value, stack[1..]);
      consumed := consumed + 1;
    }
    accepted := consumed == |outputs|;
  }

  lemma {:induction false} VerdictLengths(
    pres: seq<AccountWithMetadata>, posts: seq<AccountPostState>, program: ProgramId)
    requires ExecutionVerdict(pres, posts, program).None?
    ensures |pres| == |posts|
  {
  }
}
