/** What an accepted transaction reveals: public account changes, and for every private account a
    nullifier, a commitment and an encrypted note (`lee/privacy_preserving_circuit/src/output.rs`). */
module CircuitOutputs {
  import opened Prelude
  import opened LedgerState
  import opened Programs
  import opened Execution
  import opened Threading
  import opened Derivation
  import opened ExecutionStates
  import opened Ordering

  datatype PrivateAccountKind = RegularKind(identifier: nat) | PdaKind(binding: Binding, identifier: nat)

  /** The hashes, key encapsulation and encryption used for private outputs, about which nothing is
      assumed unless a lemma says so. */
  datatype Sealing = Sealing(
    commitment: (AccountId, Account) -> Bytes32,
    pathDigest: (Bytes32, Data) -> Bytes32,
    initNullifier: AccountId -> Bytes32,
    updateNullifier: (Bytes32, Bytes32) -> Bytes32,
    initNonce: AccountId -> nat,
    nextNonce: (nat, Bytes32) -> nat,
    viewTag: (Bytes32, Data) -> nat,
    ephemeralKey: (AccountId, Bytes32, nat) -> Bytes32,
    sharedSecret: (Data, Bytes32) -> Bytes32,
    encapsulation: (Data, Bytes32) -> Data,
    encrypt: (Account, PrivateAccountKind, Bytes32, Bytes32) -> Data,
    decapsulate: (Data, Bytes32) -> Option<Bytes32>,
    decrypt: (Data, Bytes32, Bytes32) -> Option<(PrivateAccountKind, Account)>,
    dummyNullifier: Bytes32 -> Bytes32,
    dummyCommitment: (Bytes32, Bytes32) -> Bytes32)

  datatype DummyInput = DummyInput(nullifierSeed: Bytes32, commitmentSeed: Bytes32, note: EncryptedNote, commitmentRoot: Bytes32)

  datatype CircuitOutput = CircuitOutput(
    publicActions: seq<ExitPair>,
    privateActions: seq<PrivateAction>,
    blockWindow: ValidityWindow,
    timestampWindow: ValidityWindow)

  /** `AccountId::for_private_account`. */
  function IdForKind(x: Crypto, npk: Bytes32, vpk: Data, kind: PrivateAccountKind): AccountId
  {
    match kind
    case RegularKind(identifier) => x.regularAccount(Keys(npk, vpk, identifier))
    case PdaKind(b, identifier) => x.privatePda(b, Keys(npk, vpk, identifier))
  }

  // ---- one private account ----

  predicate CredentialDerives(x: Crypto, ask: Bytes32, w: NullifierWitness)
  {
    match w
    case Update(_, nsk, _) => x.nskOf(ask) == nsk
    case Init(npk, _) => x.npkOf(x.nskOf(ask)) == npk
  }

  /** A regular private account is derived from its keys, and is presented as authorized exactly
      when a key that derives those keys is supplied. A private PDA was bound earlier. */
  predicate Credible(x: Crypto, w: PrivateWitness, pre: AccountWithMetadata)
  {
    match w.kind
    case Pda(_) => true
    case Regular(ask) =>
      && x.regularAccount(WitnessKeys(x, w)) == pre.accountId
      && (ask.Some? ==> CredentialDerives(x, ask.value, w.nullifier))
      && pre.isAuthorized == ask.Some?
  }

  predicate CanSeal(x: Crypto, w: PrivateWitness, bound: Option<Binding>, pre: AccountWithMetadata)
  {
    && Credible(x, w, pre)
    && (w.nullifier.Init? ==> pre.account == DEFAULT_ACCOUNT)
    && (w.kind.Pda? ==> bound.Some?)
  }

  /** The checks on one private account. A regular one is the account of the witness's keys, and is
      presented as authorized exactly if an authorization key is supplied, which derives the nullifier
      key. A program-derived one has a recorded binding. A witness without a prior commitment is for the
      default account only. */
  ghost predicate PassesChecks(x: Crypto, w: PrivateWitness, bound: bool, pre: AccountWithMetadata)
  {
    var npk := match w.nullifier { case Init(npk, _) => npk case Update(_, nsk, _) => x.npkOf(nsk) };
    && (match w.kind
        case Pda(_) => bound
        case Regular(None) => pre.accountId == x.regularAccount(Keys(npk, w.vpk, w.identifier)) && !pre.isAuthorized
        case Regular(Some(ask)) =>
          && pre.accountId == x.regularAccount(Keys(npk, w.vpk, w.identifier)) && pre.isAuthorized
          && if w.nullifier.Update? then w.nullifier.nsk == x.nskOf(ask) else npk == x.npkOf(x.nskOf(ask)))
    && (w.nullifier.Init? ==> pre.account == Account(DEFAULT_PROGRAM_OWNER, 0, [], 0))
  }

  lemma {:induction false} CanSealIff(x: Crypto, w: PrivateWitness, bound: Option<Binding>, pre: AccountWithMetadata)
    ensures CanSeal(x, w, bound, pre) <==> PassesChecks(x, w, bound.Some?, pre)
  {
  }

  function KindOf(w: PrivateWitness, bound: Option<Binding>): PrivateAccountKind
    requires w.kind.Pda? ==> bound.Some?
  {
    if w.kind.Regular? then RegularKind(w.identifier) else PdaKind(bound.value, w.identifier)
  }

  function NullifierFor(c: Sealing, w: NullifierWitness, pre: AccountWithMetadata): Bytes32
  {
    match w
    case Init(_, _) => c.initNullifier(pre.accountId)
    case Update(_, nsk, _) => c.updateNullifier(c.commitment(pre.accountId, pre.account), nsk)
  }

  function RootFor(c: Sealing, w: NullifierWitness, pre: AccountWithMetadata): Bytes32
  {
    match w
    case Init(_, root) => root
    case Update(_, _, proof) => c.pathDigest(c.commitment(pre.accountId, pre.account), proof)
  }

  /** The post state with the nonce of a private account. */
  function SealedAccount(c: Sealing, w: NullifierWitness, pre: AccountWithMetadata, post: Account): Account
  {
    match w
    case Init(_, _) => post.(nonce := c.initNonce(pre.accountId))
    case Update(_, nsk, _) => post.(nonce := c.nextNonce(pre.account.nonce, nsk))
  }

  function TagFor(c: Sealing, w: PrivateWitness): nat
  {
    match w.nullifier
    case Init(npk, _) => c.viewTag(npk, w.vpk)
    case Update(tag, _, _) => tag
  }

  /** `emit_private_output`. */
  function Seal(
    c: Sealing, w: PrivateWitness, bound: Option<Binding>, pre: AccountWithMetadata, post: Account): PrivateAction
    requires w.kind.Pda? ==> bound.Some?
  {
    var account, nullifier := SealedAccount(c, w.nullifier, pre, post), NullifierFor(c, w.nullifier, pre);
    var esk := c.ephemeralKey(pre.accountId, w.randomSeed, account.nonce);
    var ciphertext := c.encrypt(account, KindOf(w, bound), c.sharedSecret(w.vpk, esk), nullifier);
    PrivateAction(nullifier, RootFor(c, w.nullifier, pre), c.commitment(pre.accountId, account),
                  EncryptedNote(ciphertext, c.encapsulation(w.vpk, esk), TagFor(c, w)))
  }

  /** `emit_dummy_output`. */
  function SealDummy(c: Sealing, d: DummyInput): PrivateAction
  {
    var nullifier := c.dummyNullifier(d.nullifierSeed);
    PrivateAction(nullifier, d.commitmentRoot, c.dummyCommitment(nullifier, d.commitmentSeed), d.note)
  }

  // ---- the whole transaction ----

  function BoundAt(s: Exec, pos: nat): Option<Binding>
  {
    if pos in s.boundPositions then Some(s.boundPositions[pos]) else None
  }

  /** Every account has an identity, and every private one can be sealed. */
  predicate Sealable(x: Crypto, ids: seq<InputAccountIdentity>, s: Exec)
  {
    && |ids| == |s.preStates|
    && forall pos :: 0 <= pos < |ids| && ids[pos].PrivateIdentity? ==> CanSeal(x, ids[pos].evidence, BoundAt(s, pos), s.preStates[pos])
  }

  /** Every account has an identity, and every private one passes its checks. */
  lemma {:induction false} SealableIff(x: Crypto, ids: seq<InputAccountIdentity>, s: Exec)
    ensures Sealable(x, ids, s)
            <==> && |ids| == |s.preStates|
                 && forall pos :: 0 <= pos < |ids| && ids[pos].PrivateIdentity? ==>
                      PassesChecks(x, ids[pos].evidence, pos in s.boundPositions, s.preStates[pos])
  {
    hide CanSeal, PassesChecks;
    if |ids| == |s.preStates| {
      forall pos | 0 <= pos < |ids| && ids[pos].PrivateIdentity?
        ensures CanSeal(x, ids[pos].evidence, BoundAt(s, pos), s.preStates[pos])
                <==> PassesChecks(x, ids[pos].evidence, pos in s.boundPositions, s.preStates[pos])
      {
        CanSealIff(x, ids[pos].evidence, BoundAt(s, pos), s.preStates[pos]);
      }
    }
  }

  /** The pairs of the public accounts among the first `n`. */
  function PublicPairs(ids: seq<InputAccountIdentity>, pairs: seq<ExitPair>, n: nat): seq<ExitPair>
    requires n <= |ids| == |pairs|
  {
    if n == 0 then []
    else if ids[n - 1].PublicIdentity? then PublicPairs(ids, pairs, n - 1) + [pairs[n - 1]]
    else PublicPairs(ids, pairs, n - 1)
  }

  /** The actions of the private accounts among the first `n`. */
  function SealedPairs(
    x: Crypto, c: Sealing, ids: seq<InputAccountIdentity>, s: Exec, pairs: seq<ExitPair>,
    n: nat): seq<PrivateAction>
    requires Sealable(x, ids, s) && n <= |ids| == |pairs|
  {
    if n == 0 then []
    else if ids[n - 1].PublicIdentity? then SealedPairs(x, c, ids, s, pairs, n - 1)
    else
      SealedPairs(x, c, ids, s, pairs, n - 1)
      + [Seal(c, ids[n - 1].evidence, BoundAt(s, n - 1), s.preStates[n - 1], pairs[n - 1].post)]
  }

  function Padding(c: Sealing, dummies: seq<DummyInput>): seq<PrivateAction>
  {
    Mapped(d => SealDummy(c, d), dummies)
  }

  /** The private actions before they are reordered. */
  function Drafted(
    x: Crypto, c: Sealing, ids: seq<InputAccountIdentity>, s: Exec, dummies: seq<DummyInput>): seq<PrivateAction>
    requires Sealable(x, ids, s) && AllKnown(s)
  {
    SealedPairs(x, c, ids, s, ExitPairs(s), |ids|) + Padding(c, dummies)
  }

  predicate AllKnown(s: Exec)
  {
    forall i :: 0 <= i < |s.preStates| ==> s.preStates[i].accountId in s.postStates
  }

  /** `into_parts`: every removal finds its account. */
  method IntoParts(s: Exec) returns (pairs: seq<ExitPair>)
    requires Threaded(s)
    ensures AllKnown(s) && pairs == ExitPairs(s)
  {
    JournaledAreKnown(s);
    var remaining := s.postStates;
    pairs := [];
    for i := 0 to |s.preStates|
      invariant |pairs| == i
      invariant forall k :: 0 <= k < i ==> pairs[k] == ExitPairs(s)[k]
      invariant forall k :: i <= k < |s.preStates| ==>
                  && s.preStates[k].accountId in remaining
                  && remaining[s.preStates[k].accountId] == s.postStates[s.preStates[k].accountId]
    {
      var id := s.preStates[i].accountId;
      pairs := pairs + [ExitPair(s.preStates[i], remaining[id])];
      assert forall k :: i < k < |s.preStates| ==> IdsOf(s.preStates)[k] != IdsOf(s.preStates)[i];
      remaining := remaining - {id};
    }
  }

  method AppendPadding(c: Sealing, sealed: seq<PrivateAction>, dummies: seq<DummyInput>) returns (r: seq<PrivateAction>)
    ensures r == sealed + Padding(c, dummies)
  {
    r := sealed;
    for i := 0 to |dummies|
      invariant r == sealed + Padding(c, dummies)[..i]
    {
      r := r + [SealDummy(c, dummies[i])];
    }
  }

  /** `compute_circuit_output`. */
  method ComputeCircuitOutput(
    x: Crypto, c: Sealing, d: Derived, ids: seq<InputAccountIdentity>, dummies: seq<DummyInput>)
    returns (r: Option<CircuitOutput>)
    requires Threaded(d.exec)
    ensures AllKnown(d.exec) && (r.Some? <==> Sealable(x, ids, d.exec))
    ensures r.Some? <==> && |ids| == |d.exec.preStates|
                         && forall pos :: 0 <= pos < |ids| && ids[pos].PrivateIdentity? ==>
                              PassesChecks(x, ids[pos].evidence, pos in d.exec.boundPositions, d.exec.preStates[pos])
    ensures r.Some? ==>
              && r.value.publicActions == PublicPairs(ids, ExitPairs(d.exec), |ids|)
              && Obfuscates(Drafted(x, c, ids, d.exec, dummies), r.value.privateActions)
              && r.value.blockWindow == d.blockWindow && r.value.timestampWindow == d.timestampWindow
  {
    SealableIff(x, ids, d.exec);
    hide Threaded, Obfuscates, Seal, CanSeal, PassesChecks;
    var s := d.exec;
    var pairs := IntoParts(s);
    if |ids| != |pairs| {
      return None;
    }
    var publicActions, privateActions := [], [];
    for pos := 0 to |ids|
      invariant forall p :: 0 <= p < pos && ids[p].PrivateIdentity? ==> CanSeal(x, ids[p].evidence, BoundAt(s, p), s.preStates[p])
      invariant publicActions == PublicPairs(ids, pairs, pos)
      invariant Sealable(x, ids, s) ==> privateActions == SealedPairs(x, c, ids, s, pairs, pos)
    {
      match ids[pos] {
        case PublicIdentity =>
          publicActions := publicActions + [pairs[pos]];
        case PrivateIdentity(w) =>
          var bound := if pos in s.boundPositions then Some(s.boundPositions[pos]) else None;
          if !CanSeal(x, w, bound, pairs[pos].pre) {
            assert bound == BoundAt(s, pos);
            return None;
          }
          assert w.kind.Pda? ==> bound.Some? by { SealablePda(x, w, bound, pairs[pos].pre); }
          privateActions := privateActions + [Seal(c, w, bound, pairs[pos].pre, pairs[pos].post)];
      }
    }
    assert Sealable(x, ids, s);
    privateActions := AppendPadding(c, privateActions, dummies);
    assert privateActions == Drafted(x, c, ids, s, dummies);
    privateActions := ObfuscateOrdering(privateActions);
    r := Some(CircuitOutput(publicActions, privateActions, d.blockWindow, d.timestampWindow));
  }

  lemma {:induction false} SealablePda(x: Crypto, w: PrivateWitness, bound: Option<Binding>, pre: AccountWithMetadata)
    requires CanSeal(x, w, bound, pre)
    ensures w.kind.Pda? ==> bound.Some?
  {
  }

  // ---- the circuit ----

  /** The circuit accepts this execution, whose state is `s`. */
  ghost predicate AcceptedAs(
    x: Crypto, ids: seq<InputAccountIdentity>, program: ProgramId, outputs: seq<ProgramOutput>, s: Exec)
  {
    && Derive(x, ids, program, outputs).Some? && s == Derive(x, ids, program, outputs).value.exec
    && Sealable(x, ids, s) && AllKnown(s)
  }

  /** `out` is what the circuit may reveal of an accepted execution. */
  ghost predicate Reveals(
    x: Crypto, c: Sealing, ids: seq<InputAccountIdentity>, s: Exec, dummies: seq<DummyInput>, out: CircuitOutput)
    requires Sealable(x, ids, s) && AllKnown(s)
  {
    && out.publicActions == PublicPairs(ids, ExitPairs(s), |ids|)
    && Obfuscates(Drafted(x, c, ids, s, dummies), out.privateActions)
  }

  lemma {:induction false} AcceptedIsThreaded(
    x: Crypto, ids: seq<InputAccountIdentity>, program: ProgramId, outputs: seq<ProgramOutput>)
    requires Derive(x, ids, program, outputs).Some?
    ensures Threaded(Derive(x, ids, program, outputs).value.exec)
  {
    EmptyAccounted(x, ids);
    WorkAccounts(x, ids, EMPTY_EXEC, [RootFrame(program, outputs[0])], outputs, 0, []);
  }

  /** The circuit as a whole: derive the execution state, then compute what it reveals. */
  method RunCircuit(
    x: Crypto, c: Sealing, program: ProgramId, ids: seq<InputAccountIdentity>, outputs: seq<ProgramOutput>, dummies: seq<DummyInput>)
    returns (r: Option<CircuitOutput>)
    ensures r.Some? <==> Derive(x, ids, program, outputs).Some? && Sealable(x, ids, Derive(x, ids, program, outputs).value.exec)
    ensures r.Some? ==>
              var d := Derive(x, ids, program, outputs).value;
              && AcceptedAs(x, ids, program, outputs, d.exec) && Reveals(x, c, ids, d.exec, dummies, r.value)
              && r.value.blockWindow == d.blockWindow && r.value.timestampWindow == d.timestampWindow
  {
    hide Derive, Threaded, AllKnown, Obfuscates, Sealable, PublicPairs, Drafted;
    var state := DeriveFromOutputs(x, ids, program, outputs);
    if state.None? {
      return None;
    }
    AcceptedIsThreaded(x, ids, program, outputs);
    var e := state.value;
    var d := Derived(Exec(e.preStates, e.postStates, e.boundPositions, e.family, e.globallyAuthorized), e.blockWindow, e.timestampWindow);
    r := ComputeCircuitOutput(x, c, d, ids, dummies);
  }
}
