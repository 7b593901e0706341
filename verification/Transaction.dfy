/** Transactions and the system-account guards (`lez/common/src/transaction.rs`). */
module Transactions {
  import opened Prelude
  import opened LedgerState
  import opened Ordering
  import opened Validation

  /** A message and the public keys of its witness set. */
  datatype PublicTransaction = PublicTransaction(payload: Data, keys: seq<PublicKey>)

  datatype Transaction =
    | Public(tx: PublicTransaction)
    | PrivacyPreserving(ptx: PrivateTransaction)
    | ProgramDeployment(bytecode: Data)

  /** The parts of the runtime whose internals are not modelled: validation and execution of public
      transactions, what the verifier of private ones looks up, the ids derived from bytecode, the
      canonical clock transaction and the fixed system account ids. Every result below holds for all of
      them. */
  datatype Runtime = Runtime(
    runPublic: (PublicTransaction, State, nat, nat) -> Result<Effect, LeeError>,
    verifier: Verifier,
    imageId: Data -> Result<ProgramId, LeeError>,
    clockInvocation: nat -> PublicTransaction,
    clockAccounts: seq<AccountId>,
    faucetAccount: AccountId,
    bridgeAccount: AccountId)

  /** The accounts of the keys that signed. */
  function SignerIds(r: Runtime, t: Transaction): seq<AccountId>
  {
    match t
    case Public(tx) => Mapped(r.verifier.accountOf, tx.keys)
    case PrivacyPreserving(tx) => Mapped(r.verifier.accountOf, tx.keys)
    case ProgramDeployment(_) => []
  }

  function FromPublic(r: Runtime, tx: PublicTransaction, s: State, blockId: nat, timestamp: nat)
    : Result<StateDiff, LeeError>
  {
    match r.runPublic(tx, s, blockId, timestamp)
    case Success(e) => Success(StateDiff(SignerIds(r, Public(tx)), e.publicDiff, [], [], None))
    case Failure(err) => Failure(err)
  }

  function ComputeStateDiff(r: Runtime, t: Transaction, s: State, blockId: nat, timestamp: nat)
    : Result<StateDiff, LeeError>
  {
    match t
    case Public(tx) => FromPublic(r, tx, s, blockId, timestamp)
    case PrivacyPreserving(tx) =>
      (match VerifyPrivate(r.verifier, tx, s, blockId, timestamp)
       case Success(e) => Success(StateDiff(SignerIds(r, t), e.publicDiff, e.newCommitments, e.newNullifiers, None))
       case Failure(err) => Failure(err))
    case ProgramDeployment(bytecode) =>
      (match r.imageId(bytecode)
       case Success(id) =>
         if HasProgram(s, id) then Failure(ProgramAlreadyExists)
         else Success(StateDiff([], map[], [], [], Some(Program(id, bytecode))))
       case Failure(err) => Failure(err))
  }

  /** The clock accounts, then the faucet account, in the order they are checked. */
  function RestrictedAccounts(r: Runtime): seq<AccountId>
  {
    r.clockAccounts + [r.faucetAccount]
  }

  predicate ModifiesAccount(s: State, d: StateDiff, id: AccountId)
  {
    id in d.publicDiff && d.publicDiff[id] != GetAccount(s, id)
  }

  /** `validate_doesnt_modify_account` over a list of accounts: the first one the diff changes. */
  function FirstModified(s: State, d: StateDiff, ids: seq<AccountId>): (r: Option<AccountId>)
    ensures r.None? <==> forall id :: id in ids ==> !ModifiesAccount(s, d, id)
    ensures r.Some? ==> exists k :: 0 <= k < |ids| && IsFirstModified(s, d, ids, k) && r.value == ids[k]
  {
    if ids == [] then None
    else if ModifiesAccount(s, d, ids[0]) then
      assert IsFirstModified(s, d, ids, 0);
      Some(ids[0])
    else
      var rest := FirstModified(s, d, ids[1..]);
      assert rest.Some? ==> exists k :: 0 < k < |ids| && IsFirstModified(s, d, ids, k) && rest.value == ids[k] by {
        if rest.Some? {
          var k :| 0 <= k < |ids[1..]| && IsFirstModified(s, d, ids[1..], k) && rest.value == ids[1..][k];
          assert IsFirstModified(s, d, ids, k + 1);
        }
      }
      rest
  }

  ghost predicate IsFirstModified(s: State, d: StateDiff, ids: seq<AccountId>, k: nat)
    requires k < |ids|
  {
    ModifiesAccount(s, d, ids[k]) && forall i :: 0 <= i < k ==> !ModifiesAccount(s, d, ids[i])
  }

  function ValidateBridge(r: Runtime, t: Transaction, s: State, d: StateDiff): Option<LeeError>
  {
    var pre := GetAccount(s, r.bridgeAccount);
    if r.bridgeAccount !in d.publicDiff then None
    else if !t.Public? then Some(NonPublicBridgeModification)
    else
      var post := d.publicDiff[r.bridgeAccount];
      if post.(balance := pre.balance) == pre && pre.balance < post.balance then None
      else Some(BridgeModified)
  }

  function ValidateOnState(r: Runtime, t: Transaction, s: State, blockId: nat, timestamp: nat)
    : Result<StateDiff, LeeError>
  {
    match ComputeStateDiff(r, t, s, blockId, timestamp)
    case Failure(err) => Failure(err)
    case Success(diff) =>
      match FirstModified(s, diff, RestrictedAccounts(r))
      case Some(id) => Failure(RestrictedAccountModified(id))
      case None =>
        match ValidateBridge(r, t, s, diff)
        case Some(err) => Failure(err)
        case None => Success(diff)
  }

  ghost predicate SignersAre(r: Runtime, keys: seq<PublicKey>, signers: seq<AccountId>)
  {
    |signers| == |keys| && forall i :: 0 <= i < |keys| ==> signers[i] == r.verifier.accountOf(keys[i])
  }

  /** What each kind of transaction asks of the ledger. Only privacy-preserving ones add commitments
      and spend nullifiers, only deployments install a program, and only where none is. */
  lemma {:induction false} ComputedDiffIff(r: Runtime, t: Transaction, s: State, blockId: nat, timestamp: nat, d: StateDiff)
    ensures ComputeStateDiff(r, t, s, blockId, timestamp) == Success(d) <==>
            match t
            case Public(tx) =>
              var e := r.runPublic(tx, s, blockId, timestamp);
              && e.Success? && d.publicDiff == e.value.publicDiff && SignersAre(r, tx.keys, d.signers)
              && d.newCommitments == [] && d.newNullifiers == [] && d.program.None?
            case PrivacyPreserving(tx) =>
              && Verifies(r.verifier, tx, s, blockId, timestamp) && SignersAre(r, tx.keys, d.signers)
              && (forall id :: id in d.publicDiff <==> id in WrittenIds(tx.message))
              && (forall i :: 0 <= i < |tx.message.publicActions| && tx.message.publicActions[i].accountId in d.publicDiff ==>
                    d.publicDiff[tx.message.publicActions[i].accountId] == tx.message.publicActions[i].postState)
              && d.newCommitments == Commitments(tx.message.privateActions)
              && d.newNullifiers == Nullifiers(tx.message.privateActions) && d.program.None?
            case ProgramDeployment(bytecode) =>
              var id := r.imageId(bytecode);
              && id.Success? && GetAccount(s, id.value).programOwner != PROGRAM_STORAGE_OWNER
              && d.program == Some(Program(id.value, bytecode))
              && d.publicDiff == map[] && d.signers == [] && d.newCommitments == [] && d.newNullifiers == []
  {
    match t
    case Public(tx) =>
      assert SignersAre(r, tx.keys, d.signers) ==> d.signers == SignerIds(r, t);
    case PrivacyPreserving(tx) =>
      assert SignersAre(r, tx.keys, d.signers) ==> d.signers == SignerIds(r, t);
      VerifiedIff(r.verifier, tx, s, blockId, timestamp);
      hide Verifies, VerifyPrivate, Nullifiers, Commitments;
      if Verifies(r.verifier, tx, s, blockId, timestamp) {
        var e := VerifyPrivate(r.verifier, tx, s, blockId, timestamp).value;
        EntriesFixMap(tx.message, e.publicDiff, d.publicDiff);
      }
    case ProgramDeployment(_) =>
  }

  lemma {:induction false} EntriesFixMap(m: PrivateMessage, a: map<AccountId, Account>, b: map<AccountId, Account>)
    requires forall id :: id in a <==> id in WrittenIds(m)
    requires forall i :: 0 <= i < |m.publicActions| ==> a[m.publicActions[i].accountId] == m.publicActions[i].postState
    ensures a == b <==> && (forall id :: id in b <==> id in WrittenIds(m))
                        && (forall i :: 0 <= i < |m.publicActions| && m.publicActions[i].accountId in b ==>
                              b[m.publicActions[i].accountId] == m.publicActions[i].postState)
  {
    forall i | 0 <= i < |m.publicActions|
      ensures m.publicActions[i].accountId in WrittenIds(m)
    {
      assert WrittenIds(m)[i] == m.publicActions[i].accountId;
    }
    if && (forall id :: id in b <==> id in WrittenIds(m))
       && (forall i :: 0 <= i < |m.publicActions| && m.publicActions[i].accountId in b ==>
             b[m.publicActions[i].accountId] == m.publicActions[i].postState) {
      assert a.Keys == b.Keys;
      forall id | id in a
        ensures a[id] == b[id]
      {
        var i :| 0 <= i < |WrittenIds(m)| && WrittenIds(m)[i] == id;
        assert m.publicActions[i].accountId == id;
      }
    }
  }

  /** The diff leaves the account as it is. */
  ghost predicate Leaves(s: State, d: StateDiff, id: AccountId)
  {
    id in d.publicDiff ==> d.publicDiff[id] == GetAccount(s, id)
  }

  /** The diff does to the bridge account at most what the guards allow: a public transaction may
      raise its balance. */
  ghost predicate BridgeUse(r: Runtime, t: Transaction, s: State, d: StateDiff)
  {
    r.bridgeAccount in d.publicDiff ==>
      && t.Public?
      && var pre, post := GetAccount(s, r.bridgeAccount), d.publicDiff[r.bridgeAccount];
         && post.programOwner == pre.programOwner && post.data == pre.data && post.nonce == pre.nonce
         && pre.balance < post.balance
  }

  /** The guards accept a computed diff exactly when it leaves every clock account and the faucet
      account and only raises the balance of the bridge account, and otherwise name the first reason. */
  lemma {:induction false} ValidatedIff(r: Runtime, t: Transaction, s: State, blockId: nat, timestamp: nat, d: StateDiff)
    ensures ValidateOnState(r, t, s, blockId, timestamp) == Success(d)
            <==> && ComputeStateDiff(r, t, s, blockId, timestamp) == Success(d)
                 && (forall id :: id in r.clockAccounts ==> Leaves(s, d, id)) && Leaves(s, d, r.faucetAccount)
                 && BridgeUse(r, t, s, d)
    ensures ComputeStateDiff(r, t, s, blockId, timestamp) == Success(d) ==>
              var kept := forall id :: id in r.clockAccounts + [r.faucetAccount] ==> Leaves(s, d, id);
              var verdict := ValidateOnState(r, t, s, blockId, timestamp);
              && (!kept <==> verdict.Failure? && verdict.error.RestrictedAccountModified?)
              && (kept && r.bridgeAccount in d.publicDiff && !t.Public? <==> verdict == Failure(NonPublicBridgeModification))
              && (kept && t.Public? && !BridgeUse(r, t, s, d) <==> verdict == Failure(BridgeModified))
    ensures forall err :: ComputeStateDiff(r, t, s, blockId, timestamp) == Failure(err) ==>
              ValidateOnState(r, t, s, blockId, timestamp) == Failure(err)
  {
    hide ComputeStateDiff, FirstModified;
    forall id
      ensures Leaves(s, d, id) <==> !ModifiesAccount(s, d, id)
    {
    }
    assert forall id :: id in RestrictedAccounts(r) <==> id in r.clockAccounts || id == r.faucetAccount;
  }

  method ExecuteCheckOnState(r: Runtime, t: Transaction, state: V03State, blockId: nat, timestamp: nat)
    returns (error: Option<LeeError>)
    modifies state
    ensures match ValidateOnState(r, t, old(state.contents), blockId, timestamp)
            case Success(diff) => error.None? && state.contents == ApplyDiff(old(state.contents), diff)
            case Failure(err) => error == Some(err) && state.contents == old(state.contents)
  {
    match ValidateOnState(r, t, state.contents, blockId, timestamp)
    case Failure(err) => error := Some(err);
    case Success(diff) =>
      state.ApplyStateDiff(diff);
      error := None;
  }

  method ExecuteOnState(r: Runtime, t: Transaction, state: V03State, blockId: nat, timestamp: nat)
    returns (error: Option<LeeError>)
    modifies state
    ensures match ComputeStateDiff(r, t, old(state.contents), blockId, timestamp)
            case Success(diff) => error.None? && state.contents == ApplyDiff(old(state.contents), diff)
            case Failure(err) => error == Some(err) && state.contents == old(state.contents)
  {
    match ComputeStateDiff(r, t, state.contents, blockId, timestamp)
    case Failure(err) => error := Some(err);
    case Success(diff) =>
      state.ApplyStateDiff(diff);
      error := None;
  }
}

/** The system-account guards over whole runs of accepted transactions. */
module GuardedRuns {
  import opened Prelude
  import opened LedgerState
  import opened Validation
  import opened Transactions

  datatype Submission = Submission(t: Transaction, blockId: nat, timestamp: nat)

  /** The diffs applied when every submission passes `validate_on_state` in turn. */
  function GuardedDiffs(r: Runtime, s: State, subs: seq<Submission>): Option<seq<StateDiff>>
    decreases |subs|
  {
    if subs == [] then Some([])
    else
      match ValidateOnState(r, subs[0].t, s, subs[0].blockId, subs[0].timestamp)
      case Failure(_) => None
      case Success(diff) =>
        match GuardedDiffs(r, ApplyDiff(s, diff), subs[1..])
        case None => None
        case Some(rest) => Some([diff] + rest)
  }

  /** The diffs applied when every submission is replayed without guards. */
  function ReplayedDiffs(r: Runtime, s: State, subs: seq<Submission>): Option<seq<StateDiff>>
    decreases |subs|
  {
    if subs == [] then Some([])
    else
      match ComputeStateDiff(r, subs[0].t, s, subs[0].blockId, subs[0].timestamp)
      case Failure(_) => None
      case Success(diff) =>
        match ReplayedDiffs(r, ApplyDiff(s, diff), subs[1..])
        case None => None
        case Some(rest) => Some([diff] + rest)
  }

  function ApplyDiffs(s: State, diffs: seq<StateDiff>): State
    decreases |diffs|
  {
    if diffs == [] then s else ApplyDiffs(ApplyDiff(s, diffs[0]), diffs[1..])
  }

  /** The transaction signs with a key of account `id`, or deploys bytecode whose image id it is:
      the two ways to reach an account without a public entry. */
  predicate Reaches(r: Runtime, t: Transaction, id: AccountId)
  {
    id in SignerIds(r, t) || (t.ProgramDeployment? && r.imageId(t.bytecode) == Success(id))
  }

  ghost predicate DeployedIn(diffs: seq<StateDiff>, id: AccountId)
  {
    exists i :: 0 <= i < |diffs| && DeploysAt(diffs[i], id)
  }

  function TotalSignatures(diffs: seq<StateDiff>, id: AccountId): nat
  {
    if diffs == [] then 0 else Signatures(diffs[0].signers, id) + TotalSignatures(diffs[1..], id)
  }

  lemma {:induction false} DeployedInTail(diffs: seq<StateDiff>, id: AccountId)
    requires diffs != []
    ensures DeployedIn(diffs, id) <==> DeploysAt(diffs[0], id) || DeployedIn(diffs[1..], id)
  {
    if i :| 0 <= i < |diffs| && DeploysAt(diffs[i], id) {
      if i > 0 {
        assert DeploysAt(diffs[1..][i - 1], id);
      }
    }
    if i :| 0 <= i < |diffs[1..]| && DeploysAt(diffs[1..][i], id) {
      assert DeploysAt(diffs[i + 1], id);
    }
  }

  /** What one computed diff does to one account. */
  lemma {:induction false} DiffEffect(
    r: Runtime, t: Transaction, s: State, blockId: nat, timestamp: nat, d: StateDiff, id: AccountId)
    requires ComputeStateDiff(r, t, s, blockId, timestamp) == Success(d)
    ensures DeploysAt(d, id) ==>
              GetAccount(s, id).programOwner != PROGRAM_STORAGE_OWNER
              && GetAccount(ApplyDiff(s, d), id).programOwner == PROGRAM_STORAGE_OWNER
    ensures !DeploysAt(d, id) ==>
              var written := if id in d.publicDiff then d.publicDiff[id] else GetAccount(s, id);
              GetAccount(ApplyDiff(s, d), id) == written.(nonce := written.nonce + Signatures(d.signers, id))
  {
    BumpNoncesEffect(s.publicState + d.publicDiff, d.signers, id);
  }

  /** A run of guarded transactions moves a clock or faucet account in exactly two ways: a
      deployment hands it to the storage owner for good, and otherwise its nonce counts the
      signatures it made while every other field stays. */
  lemma {:induction false} RestrictedAccountOverRun(
    r: Runtime, s: State, subs: seq<Submission>, diffs: seq<StateDiff>, id: AccountId)
    requires GuardedDiffs(r, s, subs) == Some(diffs)
    requires id in RestrictedAccounts(r)
    ensures var before := GetAccount(s, id);
            var after := GetAccount(ApplyDiffs(s, diffs), id);
            if DeployedIn(diffs, id) then
              before.programOwner != PROGRAM_STORAGE_OWNER && after.programOwner == PROGRAM_STORAGE_OWNER
            else
              after == before.(nonce := before.nonce + TotalSignatures(diffs, id))
    decreases |subs|
  {
    if subs != [] {
      var d := diffs[0];
      DiffEffect(r, subs[0].t, s, subs[0].blockId, subs[0].timestamp, d, id);
      RestrictedAccountOverRun(r, ApplyDiff(s, d), subs[1..], diffs[1..], id);
      DeployedInTail(diffs, id);
    }
  }

  /** What a computed diff does behind the guards is fixed by the transaction's keys and bytecode. */
  lemma {:induction false} DiffReaches(
    r: Runtime, t: Transaction, s: State, blockId: nat, timestamp: nat, d: StateDiff, id: AccountId)
    requires ComputeStateDiff(r, t, s, blockId, timestamp) == Success(d)
    ensures Reaches(r, t, id) <==> id in d.signers || DeploysAt(d, id)
  {
  }

  ghost predicate ReachedIn(r: Runtime, subs: seq<Submission>, id: AccountId)
  {
    exists i :: 0 <= i < |subs| && Reaches(r, subs[i].t, id)
  }

  lemma {:induction false} ReachedInTail(r: Runtime, subs: seq<Submission>, id: AccountId)
    requires subs != []
    ensures ReachedIn(r, subs, id) <==> Reaches(r, subs[0].t, id) || ReachedIn(r, subs[1..], id)
  {
    hide Reaches;
    if i :| 0 < i < |subs| && Reaches(r, subs[i].t, id) {
      assert Reaches(r, subs[1..][i - 1].t, id);
    }
    if i :| 0 <= i < |subs[1..]| && Reaches(r, subs[1..][i].t, id) {
      assert Reaches(r, subs[i + 1].t, id);
    }
  }

  /** Over a run: some submission reaches the account exactly when it signed or was deployed at. */
  lemma {:induction false} RunReaches(
    r: Runtime, s: State, subs: seq<Submission>, diffs: seq<StateDiff>, id: AccountId)
    requires GuardedDiffs(r, s, subs) == Some(diffs)
    ensures ReachedIn(r, subs, id) <==> TotalSignatures(diffs, id) > 0 || DeployedIn(diffs, id)
    decreases |subs|
  {
    if subs != [] {
      hide Reaches, ReachedIn, DeployedIn, ComputeStateDiff;
      var d := diffs[0];
      DiffReaches(r, subs[0].t, s, subs[0].blockId, subs[0].timestamp, d, id);
      SignsIffListed(d.signers, id);
      DeployedInTail(diffs, id);
      ReachedInTail(r, subs, id);
      RunReaches(r, ApplyDiff(s, d), subs[1..], diffs[1..], id);
    }
  }

  /** Clock and faucet accounts come out of a guarded run unchanged exactly when no submission
      signs with a key of the account or deploys bytecode with its id. The guards read public diff
      entries only, so it is the derivation of ids that excludes those two cases. */
  lemma {:induction false} RestrictedAccountUnchangedIff(
    r: Runtime, s: State, subs: seq<Submission>, diffs: seq<StateDiff>, id: AccountId)
    requires GuardedDiffs(r, s, subs) == Some(diffs)
    requires id in RestrictedAccounts(r)
    ensures GetAccount(ApplyDiffs(s, diffs), id) == GetAccount(s, id)
            <==> forall i :: 0 <= i < |subs| ==> !Reaches(r, subs[i].t, id)
  {
    RestrictedAccountOverRun(r, s, subs, diffs, id);
    RunReaches(r, s, subs, diffs, id);
  }

  /** Some diff has a public entry for `id`. */
  ghost predicate WrittenIn(diffs: seq<StateDiff>, id: AccountId)
  {
    exists i :: 0 <= i < |diffs| && id in diffs[i].publicDiff
  }

  lemma {:induction false} WrittenInTail(diffs: seq<StateDiff>, id: AccountId)
    requires diffs != []
    ensures WrittenIn(diffs, id) <==> id in diffs[0].publicDiff || WrittenIn(diffs[1..], id)
  {
    if i :| 0 <= i < |diffs| && id in diffs[i].publicDiff {
      if i > 0 {
        assert id in diffs[1..][i - 1].publicDiff;
      }
    }
    if i :| 0 <= i < |diffs[1..]| && id in diffs[1..][i].publicDiff {
      assert id in diffs[i + 1].publicDiff;
    }
  }

  /** Over a guarded run the bridge account, unless a deployment takes it over, keeps its owner
      and data, its nonce counts its signatures, and its balance never falls and stays equal
      exactly when no diff writes the account. */
  lemma {:induction false} BridgeAccountOverRun(r: Runtime, s: State, subs: seq<Submission>, diffs: seq<StateDiff>)
    requires GuardedDiffs(r, s, subs) == Some(diffs)
    ensures var before := GetAccount(s, r.bridgeAccount);
            var after := GetAccount(ApplyDiffs(s, diffs), r.bridgeAccount);
            if DeployedIn(diffs, r.bridgeAccount) then
              before.programOwner != PROGRAM_STORAGE_OWNER && after.programOwner == PROGRAM_STORAGE_OWNER
            else
              && after == before.(balance := after.balance, nonce := before.nonce + TotalSignatures(diffs, r.bridgeAccount))
              && before.balance <= after.balance
              && (before.balance == after.balance <==> !WrittenIn(diffs, r.bridgeAccount))
    decreases |subs|
  {
    if subs != [] {
      var d := diffs[0];
      DiffEffect(r, subs[0].t, s, subs[0].blockId, subs[0].timestamp, d, r.bridgeAccount);
      DeployedInTail(diffs, r.bridgeAccount);
      WrittenInTail(diffs, r.bridgeAccount);
      BridgeAccountOverRun(r, ApplyDiff(s, d), subs[1..], diffs[1..]);
    }
  }

  /** Every accepted transaction that writes the bridge account is a public one, and strictly
      raises its balance there. */
  lemma {:induction false} BridgeWritersArePublic(
    r: Runtime, s: State, subs: seq<Submission>, diffs: seq<StateDiff>, i: nat)
    requires GuardedDiffs(r, s, subs) == Some(diffs)
    requires i < |diffs| && r.bridgeAccount in diffs[i].publicDiff
    ensures |diffs| == |subs| && subs[i].t.Public?
    ensures GetAccount(ApplyDiffs(s, diffs[..i]), r.bridgeAccount).balance < diffs[i].publicDiff[r.bridgeAccount].balance
    decreases |subs|
  {
    if i > 0 {
      BridgeWritersArePublic(r, ApplyDiff(s, diffs[0]), subs[1..], diffs[1..], i - 1);
      assert diffs[..i][1..] == diffs[1..][..i - 1];
    } else {
      LengthMatches(r, ApplyDiff(s, diffs[0]), subs[1..]);
    }
  }

  lemma {:induction false} LengthMatches(r: Runtime, s: State, subs: seq<Submission>)
    ensures GuardedDiffs(r, s, subs).Some? ==> |GuardedDiffs(r, s, subs).value| == |subs|
    decreases |subs|
  {
    if subs != [] {
      match ValidateOnState(r, subs[0].t, s, subs[0].blockId, subs[0].timestamp)
      case Failure(_) =>
      case Success(d) => LengthMatches(r, ApplyDiff(s, d), subs[1..]);
    }
  }

  /** Replaying an accepted run without the guards applies the same diffs, hence reaches the same
      state. */
  lemma {:induction false} GuardedRunReplays(r: Runtime, s: State, subs: seq<Submission>, diffs: seq<StateDiff>)
    requires GuardedDiffs(r, s, subs) == Some(diffs)
    ensures ReplayedDiffs(r, s, subs) == Some(diffs)
    decreases |subs|
  {
    if subs != [] {
      GuardedRunReplays(r, ApplyDiff(s, diffs[0]), subs[1..], diffs[1..]);
    }
  }

  ghost predicate ReachesNoSystemId(r: Runtime, t: Transaction)
  {
    forall id :: id in RestrictedAccounts(r) || id == r.bridgeAccount ==> !Reaches(r, t, id)
  }

  /** No key used and no bytecode deployed derives the id of a system account. A derived id is a hash
      of the key or the bytecode, so an exception is a collision with a system id. */
  ghost predicate NoSystemIdDerived(r: Runtime, subs: seq<Submission>)
  {
    forall sub :: sub in subs ==> ReachesNoSystemId(r, sub.t)
  }

  /** What the guards are for: over any run of accepted transactions the clock and faucet accounts
      never change, and of the bridge account nothing changes but a balance that never falls and
      rises exactly when a diff writes the account. */
  lemma {:induction false} SystemAccountsAreSafe(r: Runtime, s: State, subs: seq<Submission>, diffs: seq<StateDiff>)
    requires GuardedDiffs(r, s, subs) == Some(diffs) && NoSystemIdDerived(r, subs)
    ensures forall id :: id in RestrictedAccounts(r) ==> GetAccount(ApplyDiffs(s, diffs), id) == GetAccount(s, id)
    ensures var before, after := GetAccount(s, r.bridgeAccount), GetAccount(ApplyDiffs(s, diffs), r.bridgeAccount);
            && after == before.(balance := after.balance) && before.balance <= after.balance
            && (before.balance == after.balance <==> !WrittenIn(diffs, r.bridgeAccount))
  {
    forall id | id in RestrictedAccounts(r)
      ensures GetAccount(ApplyDiffs(s, diffs), id) == GetAccount(s, id)
    {
      RestrictedAccountUnchangedIff(r, s, subs, diffs, id);
    }
    BridgeAccountOverRun(r, s, subs, diffs);
    RunReaches(r, s, subs, diffs, r.bridgeAccount);
  }

  lemma {:induction false} ApplyDiffsSnoc(s: State, diffs: seq<StateDiff>, d: StateDiff)
    ensures ApplyDiffs(s, diffs + [d]) == ApplyDiff(ApplyDiffs(s, diffs), d)
    decreases |diffs|
  {
    hide ApplyDiff;
    var all := diffs + [d];
    if diffs == [] {
      assert all[1..] == [];
    } else {
      assert all[1..] == diffs[1..] + [d];
      ApplyDiffsSnoc(ApplyDiff(s, diffs[0]), diffs[1..], d);
    }
  }

  /** One more accepted submission. */
  lemma {:induction false} GuardedSnoc(
    r: Runtime, s: State, subs: seq<Submission>, diffs: seq<StateDiff>, sub: Submission, d: StateDiff)
    requires GuardedDiffs(r, s, subs) == Some(diffs)
    requires ValidateOnState(r, sub.t, ApplyDiffs(s, diffs), sub.blockId, sub.timestamp) == Success(d)
    ensures GuardedDiffs(r, s, subs + [sub]) == Some(diffs + [d])
    ensures ApplyDiffs(s, diffs + [d]) == ApplyDiff(ApplyDiffs(s, diffs), d)
    decreases |subs|
  {
    hide ValidateOnState, ApplyDiff;
    ApplyDiffsSnoc(s, diffs, d);
    var all, after := subs + [sub], diffs + [d];
    if subs == [] {
      assert all[1..] == [] && after[1..] == [];
      assert [d] + [] == after;
    } else {
      assert all[1..] == subs[1..] + [sub] && after[1..] == diffs[1..] + [d];
      GuardedSnoc(r, ApplyDiff(s, diffs[0]), subs[1..], diffs[1..], sub, d);
      assert after == [diffs[0]] + after[1..];
    }
  }

  /** System accounts as they were, but for a bridge balance that may have risen. */
  ghost predicate SystemAccountsKept(r: Runtime, before: State, after: State)
  {
    && (forall id :: id in RestrictedAccounts(r) ==> GetAccount(after, id) == GetAccount(before, id))
    && GetAccount(after, r.bridgeAccount)
       == GetAccount(before, r.bridgeAccount).(balance := GetAccount(after, r.bridgeAccount).balance)
    && GetAccount(before, r.bridgeAccount).balance <= GetAccount(after, r.bridgeAccount).balance
  }

  /** Executes submissions in place, passing over the refused ones. The ledger ends as the accepted ones
      leave it, each validated on the ledger its predecessors made, and system accounts are kept unless
      a key or bytecode among the submissions derives a system id. */
  method ExecuteGuarded(r: Runtime, state: V03State, subs: seq<Submission>)
    returns (accepted: seq<Submission>, ghost diffs: seq<StateDiff>)
    modifies state
    ensures GuardedDiffs(r, old(state.contents), accepted) == Some(diffs)
    ensures state.contents == ApplyDiffs(old(state.contents), diffs)
    ensures forall sub :: sub in accepted ==> sub in subs
    ensures NoSystemIdDerived(r, subs) ==> SystemAccountsKept(r, old(state.contents), state.contents)
  {
    hide ValidateOnState, ApplyDiff, ReachesNoSystemId;
    accepted, diffs := [], [];
    for i := 0 to |subs|
      invariant GuardedDiffs(r, old(state.contents), accepted) == Some(diffs)
      invariant state.contents == ApplyDiffs(old(state.contents), diffs)
      invariant forall sub :: sub in accepted ==> sub in subs
    {
      ghost var verdict := ValidateOnState(r, subs[i].t, state.contents, subs[i].blockId, subs[i].timestamp);
      var error := ExecuteCheckOnState(r, subs[i].t, state, subs[i].blockId, subs[i].timestamp);
      if error.None? {
        GuardedSnoc(r, old(state.contents), accepted, diffs, subs[i], verdict.value);
        accepted, diffs := accepted + [subs[i]], diffs + [verdict.value];
      }
    }
    if NoSystemIdDerived(r, subs) {
      SystemAccountsAreSafe(r, old(state.contents), accepted, diffs);
    }
  }
}
