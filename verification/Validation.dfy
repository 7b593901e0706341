/** Validating a privacy-preserving transaction against the ledger
    (`lee/state_machine/src/validated_state_diff/mod.rs`). */
module Validation {
  import opened Prelude
  import opened LedgerState
  import opened Programs
  import opened Derivation
  import opened Ordering
  import opened CircuitOutputs

  type PublicKey = Data

  datatype PublicWrite = PublicWrite(accountId: AccountId, postState: Account)

  /** What a circuit run reveals, as it is put on the channel: of the public accounts only ids and post
      states, since validators know the pre states. */
  datatype PrivateMessage = PrivateMessage(
    publicActions: seq<PublicWrite>,
    nonces: seq<nat>,
    privateActions: seq<PrivateAction>,
    blockWindow: ValidityWindow,
    timestampWindow: ValidityWindow)

  datatype PrivateTransaction = PrivateTransaction(message: PrivateMessage, keys: seq<PublicKey>, signatures: Data, proof: Data)

  datatype LeeError =
    | RestrictedAccountModified(account: AccountId)
    | NonPublicBridgeModification
    | BridgeModified
    | ProgramAlreadyExists
    | NoPrivateActions
    | DuplicateAccounts
    | DuplicateNullifiers
    | DuplicateCommitments
    | NonceCountMismatch
    | InvalidSignature
    | NonceMismatch
    | OutOfValidityWindow
    | InvalidProof
    | CommitmentSeen
    | NullifierSeen
    | UnknownRoot
    | Rejected(code: nat)

  /** What a validated public or privacy-preserving transaction asks of the state. */
  datatype Effect = Effect(
    publicDiff: map<AccountId, Account>,
    newCommitments: seq<Bytes32>,
    newNullifiers: seq<Bytes32>)

  /** The ids of public keys, signatures, circuit proofs, and the roots a history of commitments has had. */
  datatype Verifier = Verifier(
    accountOf: PublicKey -> AccountId,
    signaturesValid: PrivateTransaction -> bool,
    proofValid: (Data, CircuitOutput) -> bool,
    knownRoot: (seq<seq<Bytes32>>, Bytes32) -> bool)

  function WrittenIds(m: PrivateMessage): seq<AccountId>
  {
    Mapped((w: PublicWrite) => w.accountId, m.publicActions)
  }

  function PrivateSigners(v: Verifier, tx: PrivateTransaction): seq<AccountId>
  {
    Mapped(v.accountOf, tx.keys)
  }

  /** What the proof must be a proof of: the message, with the public accounts as they are on the ledger
      and authorized exactly if they signed. */
  function StatementOf(v: Verifier, tx: PrivateTransaction, s: State): CircuitOutput
  {
    var m := tx.message;
    CircuitOutput(
      Mapped((w: PublicWrite) =>
               ExitPair(AccountWithMetadata(GetAccount(s, w.accountId), w.accountId in PrivateSigners(v, tx), w.accountId), w.postState),
             m.publicActions),
      m.privateActions, m.blockWindow, m.timestampWindow)
  }

  predicate HasCommitment(s: State, c: Bytes32)
  {
    exists i :: 0 <= i < |s.commitmentBatches| && c in s.commitmentBatches[i]
  }

  /** The first nullifier that is spent already, or whose root was never one of the ledger's. */
  function NullifierProblem(v: Verifier, s: State, actions: seq<PrivateAction>): (r: Option<LeeError>)
    ensures r.None? <==> forall i :: 0 <= i < |actions| ==>
              actions[i].nullifier !in s.nullifiers && v.knownRoot(s.commitmentBatches, actions[i].root)
  {
    if actions == [] then None
    else if actions[0].nullifier in s.nullifiers then Some(NullifierSeen)
    else if !v.knownRoot(s.commitmentBatches, actions[0].root) then Some(UnknownRoot)
    else
      assert actions == [actions[0]] + actions[1..];
      NullifierProblem(v, s, actions[1..])
  }

  predicate NoncesCurrent(v: Verifier, tx: PrivateTransaction, s: State)
    requires |tx.message.nonces| == |tx.keys|
  {
    forall i :: 0 <= i < |tx.keys| ==> GetAccount(s, v.accountOf(tx.keys[i])).nonce == tx.message.nonces[i]
  }

  function WritesOf(ws: seq<PublicWrite>): map<AccountId, Account>
  {
    if ws == [] then map[] else WritesOf(ws[..|ws| - 1])[ws[|ws| - 1].accountId := ws[|ws| - 1].postState]
  }

  /** `from_privacy_preserving_transaction_with_circuit_id`: the checks in order. */
  function VerifyPrivate(v: Verifier, tx: PrivateTransaction, s: State, blockId: nat, timestamp: nat): Result<Effect, LeeError>
  {
    var m := tx.message;
    var nullifiers, commitments := Nullifiers(m.privateActions), Commitments(m.privateActions);
    if m.privateActions == [] then Failure(NoPrivateActions)
    else if |IdSet(WrittenIds(m))| != |m.publicActions| then Failure(DuplicateAccounts)
    else if |IdSet(nullifiers)| != |nullifiers| then Failure(DuplicateNullifiers)
    else if |IdSet(commitments)| != |commitments| then Failure(DuplicateCommitments)
    else if |m.nonces| != |tx.keys| then Failure(NonceCountMismatch)
    else if !v.signaturesValid(tx) then Failure(InvalidSignature)
    else if !NoncesCurrent(v, tx, s) then Failure(NonceMismatch)
    else if !(ValidFor(m.blockWindow, blockId) && ValidFor(m.timestampWindow, timestamp)) then Failure(OutOfValidityWindow)
    else if !v.proofValid(tx.proof, StatementOf(v, tx, s)) then Failure(InvalidProof)
    else if exists i :: 0 <= i < |commitments| && HasCommitment(s, commitments[i]) then Failure(CommitmentSeen)
    else
      match NullifierProblem(v, s, m.privateActions)
      case Some(err) => Failure(err)
      case None => Success(Effect(WritesOf(m.publicActions), commitments, nullifiers))
  }

  /** The transaction may be applied at this height and time to this ledger: it is signed with the current
      nonces, within its windows, proven for the ledger's public accounts, has private actions, repeats no
      account, nullifier or commitment, spends only unspent nullifiers under roots the ledger has had, and
      adds only new commitments. */
  ghost predicate Verifies(v: Verifier, tx: PrivateTransaction, s: State, blockId: nat, timestamp: nat)
  {
    var m := tx.message;
    && m.privateActions != []
    && Distinct(WrittenIds(m)) && Distinct(Nullifiers(m.privateActions)) && Distinct(Commitments(m.privateActions))
    && |m.nonces| == |tx.keys| && v.signaturesValid(tx)
    && (forall i :: 0 <= i < |tx.keys| ==> GetAccount(s, v.accountOf(tx.keys[i])).nonce == m.nonces[i])
    && ValidFor(m.blockWindow, blockId) && ValidFor(m.timestampWindow, timestamp)
    && v.proofValid(tx.proof, StatementOf(v, tx, s))
    && (forall i :: 0 <= i < |m.privateActions| ==>
          && !HasCommitment(s, m.privateActions[i].commitment)
          && m.privateActions[i].nullifier !in s.nullifiers
          && v.knownRoot(s.commitmentBatches, m.privateActions[i].root))
  }

  lemma {:induction false} WritesOfExact(ws: seq<PublicWrite>)
    requires Distinct(Mapped((w: PublicWrite) => w.accountId, ws))
    ensures forall id :: id in WritesOf(ws) <==> exists i :: 0 <= i < |ws| && ws[i].accountId == id
    ensures forall i :: 0 <= i < |ws| ==> WritesOf(ws)[ws[i].accountId] == ws[i].postState
    decreases |ws|
  {
    if ws != [] {
      var n := |ws| - 1;
      var ids := Mapped((w: PublicWrite) => w.accountId, ws);
      assert Mapped((w: PublicWrite) => w.accountId, ws[..n]) == ids[..n];
      WritesOfExact(ws[..n]);
      forall i | 0 <= i < n
        ensures ws[i].accountId != ws[n].accountId
      {
        assert ids[i] != ids[n];
      }
      forall id
        ensures id in WritesOf(ws) <==> exists i :: 0 <= i < |ws| && ws[i].accountId == id
      {
        if i :| 0 <= i < |ws| && ws[i].accountId == id {
          assert i < n ==> ws[..n][i].accountId == id;
        }
        if i :| 0 <= i < n && ws[..n][i].accountId == id {
          assert ws[i].accountId == id;
        }
      }
      forall i | 0 <= i < |ws|
        ensures WritesOf(ws)[ws[i].accountId] == ws[i].postState
      {
        assert i < n ==> ws[..n][i] == ws[i];
      }
    }
  }

  /** Validation succeeds exactly on such transactions, and then asks for exactly what the message says. */
  lemma {:induction false} VerifiedIff(v: Verifier, tx: PrivateTransaction, s: State, blockId: nat, timestamp: nat)
    ensures VerifyPrivate(v, tx, s, blockId, timestamp).Success? <==> Verifies(v, tx, s, blockId, timestamp)
    ensures VerifyPrivate(v, tx, s, blockId, timestamp).Success? ==>
              var e, m := VerifyPrivate(v, tx, s, blockId, timestamp).value, tx.message;
              && e.newNullifiers == Nullifiers(m.privateActions) && e.newCommitments == Commitments(m.privateActions)
              && (forall id :: id in e.publicDiff <==> id in WrittenIds(m))
              && (forall i :: 0 <= i < |m.publicActions| ==> e.publicDiff[m.publicActions[i].accountId] == m.publicActions[i].postState)
  {
    var m := tx.message;
    DistinctIffSetSize(WrittenIds(m));
    DistinctIffSetSize(Nullifiers(m.privateActions));
    DistinctIffSetSize(Commitments(m.privateActions));
    assert forall i :: 0 <= i < |m.privateActions| ==> Commitments(m.privateActions)[i] == m.privateActions[i].commitment;
    if Distinct(WrittenIds(m)) {
      WritesOfExact(m.publicActions);
      forall id
        ensures id in WrittenIds(m) <==> exists i :: 0 <= i < |m.publicActions| && m.publicActions[i].accountId == id
      {
        if i :| 0 <= i < |m.publicActions| && m.publicActions[i].accountId == id {
          assert WrittenIds(m)[i] == id;
        }
      }
    }
    hide HasCommitment, Nullifiers, Commitments, WrittenIds, WritesOf, StatementOf, Distinct, IdSet, NullifierProblem;
  }
}
