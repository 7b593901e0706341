/** What every accepted privacy-preserving transaction guarantees about what it reveals. */
module CircuitSoundness {
  import opened Prelude
  import opened LedgerState
  import opened Programs
  import opened Execution
  import opened CallTrees
  import opened Threading
  import opened Provenance
  import opened Derivation
  import opened Ordering
  import opened CircuitOutputs

  // ---- account kinds and recovery by the owner ----

  /** The kind sealed into a private account's note re-derives the account id from its keys. */
  lemma {:induction false} KindRederivesId(
    x: Crypto, ids: seq<InputAccountIdentity>, program: ProgramId, outputs: seq<ProgramOutput>, s: Exec, pos: nat)
    requires AcceptedAs(x, ids, program, outputs, s) && pos < |ids| && ids[pos].PrivateIdentity?
    ensures var w := ids[pos].evidence;
            IdForKind(x, WitnessNpk(x, w.nullifier), w.vpk, KindOf(w, BoundAt(s, pos))) == s.preStates[pos].accountId
  {
    AcceptedBindings(x, ids, program, outputs);
    hide Derive;
    assert CanSeal(x, ids[pos].evidence, BoundAt(s, pos), s.preStates[pos]);
  }

  /** The viewing key recovers the shared secrets encapsulated to it, and decryption undoes
      encryption. */
  ghost predicate Opens(c: Sealing, vsk: Bytes32, vpk: Data)
  {
    && (forall esk :: c.decapsulate(c.encapsulation(vpk, esk), vsk) == Some(c.sharedSecret(vpk, esk)))
    && forall account, kind, secret, nullifier ::
         c.decrypt(c.encrypt(account, kind, secret, nullifier), secret, nullifier) == Some((kind, account))
  }

  datatype Found = Found(accountId: AccountId, kind: PrivateAccountKind, account: Account)

  /** What a wallet reads from an action with one of its keys. */
  function ReadNote(x: Crypto, c: Sealing, npk: Bytes32, vpk: Data, vsk: Bytes32, a: PrivateAction): Option<Found>
  {
    match c.decapsulate(a.note.epk, vsk)
    case None => None
    case Some(secret) =>
      match c.decrypt(a.note.ciphertext, secret, a.nullifier)
      case None => None
      case Some((kind, account)) => Some(Found(IdForKind(x, npk, vpk, kind), kind, account))
  }

  lemma {:induction false} SealedAt(
    x: Crypto, c: Sealing, ids: seq<InputAccountIdentity>, s: Exec, pairs: seq<ExitPair>, n: nat, pos: nat)
    requires Sealable(x, ids, s) && pos < n <= |ids| == |pairs| && ids[pos].PrivateIdentity?
    ensures Seal(c, ids[pos].evidence, BoundAt(s, pos), s.preStates[pos], pairs[pos].post) in SealedPairs(x, c, ids, s, pairs, n)
  {
    hide Seal;
    if pos < n - 1 {
      SealedAt(x, c, ids, s, pairs, n - 1, pos);
    }
  }

  /** A drafted action's spend and commitment both appear in the revealed sequence. */
  lemma {:induction false} DraftIsRevealed(
    drafted: seq<PrivateAction>, out: seq<PrivateAction>, a: PrivateAction) returns (k: nat)
    requires Obfuscates(drafted, out) && a in drafted
    ensures k < |out| && SpendOf(out[k]) == SpendOf(a)
    ensures a.commitment in Commitments(out)
  {
    ObfuscationPreserves(drafted, out);
    hide Obfuscates;
    var j :| 0 <= j < |drafted| && drafted[j] == a;
    assert Spends(drafted)[j] == SpendOf(a) && Commitments(drafted)[j] == a.commitment;
    PermutationKeepsMembers(Spends(out), Spends(drafted), SpendOf(a));
    PermutationKeepsMembers(Commitments(out), Commitments(drafted), a.commitment);
    k :| k < |Spends(out)| && Spends(out)[k] == SpendOf(a);
  }

  /** Whoever holds the viewing key of a private account finds, among the revealed actions, one
      under the nullifier the account's witness spends, and reads from it the account id and the new
      account state; the commitment to exactly that is revealed too. A note of a new account carries
      the view tag the wallet scans for. */
  lemma {:induction false} OwnerRecoversAccount(
    x: Crypto, c: Sealing, ids: seq<InputAccountIdentity>, program: ProgramId, outputs: seq<ProgramOutput>, s: Exec,
    dummies: seq<DummyInput>, out: CircuitOutput, pos: nat, vsk: Bytes32) returns (k: nat)
    requires AcceptedAs(x, ids, program, outputs, s) && Reveals(x, c, ids, s, dummies, out)
    requires pos < |ids| && ids[pos].PrivateIdentity? && Opens(c, vsk, ids[pos].evidence.vpk)
    ensures var w, pre := ids[pos].evidence, s.preStates[pos];
            var account := SealedAccount(c, w.nullifier, pre, s.postStates[pre.accountId]);
            && k < |out.privateActions|
            && out.privateActions[k].nullifier == NullifierFor(c, w.nullifier, pre)
            && ReadNote(x, c, WitnessNpk(x, w.nullifier), w.vpk, vsk, out.privateActions[k])
               == Some(Found(pre.accountId, KindOf(w, BoundAt(s, pos)), account))
            && c.commitment(pre.accountId, account) in Commitments(out.privateActions)
            && (w.nullifier.Init? ==> out.privateActions[k].note.viewTag == c.viewTag(w.nullifier.npk, w.vpk))
  {
    KindRederivesId(x, ids, program, outputs, s, pos);
    hide Derive, Obfuscates;
    k := SealIsRevealed(x, c, ids, s, dummies, out, pos);
  }

  /** The nullifier a wallet expects of the next update of an account it has read. */
  function AwaitedNullifier(c: Sealing, found: Found, nsk: Bytes32): Bytes32
  {
    c.updateNullifier(c.commitment(found.accountId, found.account), nsk)
  }

  /** What a private account's place in an accepted transaction reveals. */
  lemma {:induction false} SealIsRevealed(
    x: Crypto, c: Sealing, ids: seq<InputAccountIdentity>, s: Exec, dummies: seq<DummyInput>, out: CircuitOutput, pos: nat)
    returns (k: nat)
    requires Sealable(x, ids, s) && AllKnown(s) && Reveals(x, c, ids, s, dummies, out)
    requires pos < |ids| && ids[pos].PrivateIdentity?
    ensures var w, pre := ids[pos].evidence, s.preStates[pos];
            var a := Seal(c, w, BoundAt(s, pos), pre, s.postStates[pre.accountId]);
            k < |out.privateActions| && SpendOf(out.privateActions[k]) == SpendOf(a) && a.commitment in Commitments(out.privateActions)
  {
    hide Obfuscates, Seal;
    SealedAt(x, c, ids, s, ExitPairs(s), |ids|, pos);
    var a := Seal(c, ids[pos].evidence, BoundAt(s, pos), s.preStates[pos], ExitPairs(s)[pos].post);
    k := DraftIsRevealed(Drafted(x, c, ids, s, dummies), out.privateActions, a);
  }

  // ---- exactly what is revealed ----

  /** The kind, note and actions of a private account, written out. */
  ghost predicate ActionOf(
    c: Sealing, w: PrivateWitness, kind: PrivateAccountKind, pre: AccountWithMetadata, post: Account, a: PrivateAction)
  {
    var id := pre.accountId;
    var nonce := match w.nullifier { case Init(_, _) => c.initNonce(id) case Update(_, nsk, _) => c.nextNonce(pre.account.nonce, nsk) };
    var account := Account(post.programOwner, post.balance, post.data, nonce);
    var esk := c.ephemeralKey(id, w.randomSeed, nonce);
    && a.commitment == c.commitment(id, account)
    && a.note.ciphertext == c.encrypt(account, kind, c.sharedSecret(w.vpk, esk), a.nullifier)
    && a.note.epk == c.encapsulation(w.vpk, esk)
    && match w.nullifier
       case Init(npk, root) =>
         a.nullifier == c.initNullifier(id) && a.root == root && a.note.viewTag == c.viewTag(npk, w.vpk)
       case Update(tag, nsk, proof) =>
         var spent := c.commitment(id, pre.account);
         a.nullifier == c.updateNullifier(spent, nsk) && a.root == c.pathDigest(spent, proof) && a.note.viewTag == tag
  }

  /** Every private account of an accepted transaction is revealed as its action says, up to the order
      of commitments: a new one under its initialization nullifier and the given root, an updated one
      under the nullifier of the commitment it was found with and the root that commitment opens, and
      either with a note of its new state and a commitment to it. */
  lemma {:induction false} PrivateAccountIsRevealed(
    x: Crypto, c: Sealing, ids: seq<InputAccountIdentity>, s: Exec, dummies: seq<DummyInput>, out: CircuitOutput, pos: nat)
    returns (a: PrivateAction, k: nat)
    requires Sealable(x, ids, s) && AllKnown(s) && Reveals(x, c, ids, s, dummies, out)
    requires pos < |ids| && ids[pos].PrivateIdentity?
    ensures var w, pre := ids[pos].evidence, s.preStates[pos];
            && (w.kind.Pda? ==> pos in s.boundPositions)
            && ActionOf(c, w, if w.kind.Regular? then RegularKind(w.identifier) else PdaKind(s.boundPositions[pos], w.identifier),
                        pre, s.postStates[pre.accountId], a)
    ensures k < |out.privateActions| && SpendOf(out.privateActions[k]) == SpendOf(a)
    ensures a.commitment in Commitments(out.privateActions)
  {
    k := SealIsRevealed(x, c, ids, s, dummies, out, pos);
    var w, pre := ids[pos].evidence, s.preStates[pos];
    assert CanSeal(x, w, BoundAt(s, pos), pre);
    a := Seal(c, w, BoundAt(s, pos), pre, s.postStates[pre.accountId]);
    hide Obfuscates, CanSeal, Reveals;
  }

  /** Padding is revealed as given, under the hashes of its seeds. */
  lemma {:induction false} DummyIsRevealed(
    x: Crypto, c: Sealing, ids: seq<InputAccountIdentity>, s: Exec, dummies: seq<DummyInput>, out: CircuitOutput, i: nat)
    returns (k: nat)
    requires Sealable(x, ids, s) && AllKnown(s) && Reveals(x, c, ids, s, dummies, out) && i < |dummies|
    ensures var d := dummies[i];
            var nullifier := c.dummyNullifier(d.nullifierSeed);
            && k < |out.privateActions| && SpendOf(out.privateActions[k]) == Spend(nullifier, d.commitmentRoot, d.note)
            && c.dummyCommitment(nullifier, d.commitmentSeed) in Commitments(out.privateActions)
  {
    hide Obfuscates, SealedPairs;
    var drafted := Drafted(x, c, ids, s, dummies);
    var at := |SealedPairs(x, c, ids, s, ExitPairs(s), |ids|)| + i;
    assert drafted[at] == SealDummy(c, dummies[i]);
    k := DraftIsRevealed(drafted, out.privateActions, drafted[at]);
  }

  /** How many of the first `n` identities are public. */
  function PublicCount(ids: seq<InputAccountIdentity>, n: nat): nat
    requires n <= |ids|
  {
    if n == 0 then 0 else PublicCount(ids, n - 1) + if ids[n - 1].PublicIdentity? then 1 else 0
  }

  lemma {:induction false} PublicPairsExact(ids: seq<InputAccountIdentity>, pairs: seq<ExitPair>, n: nat)
    requires n <= |ids| == |pairs|
    ensures |PublicPairs(ids, pairs, n)| == PublicCount(ids, n) <= n
    ensures forall pos :: 0 <= pos < n && ids[pos].PublicIdentity? ==>
              PublicCount(ids, pos) < PublicCount(ids, n) && PublicPairs(ids, pairs, n)[PublicCount(ids, pos)] == pairs[pos]
  {
    if n > 0 {
      PublicPairsExact(ids, pairs, n - 1);
    }
  }

  lemma {:induction false} SealedCount(
    x: Crypto, c: Sealing, ids: seq<InputAccountIdentity>, s: Exec, pairs: seq<ExitPair>, n: nat)
    requires Sealable(x, ids, s) && n <= |ids| == |pairs|
    ensures |SealedPairs(x, c, ids, s, pairs, n)| + PublicCount(ids, n) == n
  {
    hide Seal, Sealable;
    if n > 0 {
      SealedCount(x, c, ids, s, pairs, n - 1);
    }
  }

  /** Nothing else is revealed: the public actions are, in order, the public accounts as first found and
      last left, and there is one private action for each private account and each padding input. */
  lemma {:induction false} RevealedExactly(
    x: Crypto, c: Sealing, ids: seq<InputAccountIdentity>, s: Exec, dummies: seq<DummyInput>, out: CircuitOutput)
    requires Sealable(x, ids, s) && AllKnown(s) && Reveals(x, c, ids, s, dummies, out)
    ensures |out.publicActions| == PublicCount(ids, |ids|)
    ensures |out.privateActions| + PublicCount(ids, |ids|) == |ids| + |dummies|
    ensures forall pos :: 0 <= pos < |ids| && ids[pos].PublicIdentity? ==>
              && PublicCount(ids, pos) < |out.publicActions|
              && out.publicActions[PublicCount(ids, pos)] == ExitPair(s.preStates[pos], s.postStates[s.preStates[pos].accountId])
  {
    var drafted := Drafted(x, c, ids, s, dummies);
    PublicPairsExact(ids, ExitPairs(s), |ids|);
    SealedCount(x, c, ids, s, ExitPairs(s), |ids|);
    ObfuscationPreserves(drafted, out.privateActions);
    hide SealedPairs, PublicPairs, PublicCount, Obfuscates, Sealable;
    PermutationLengths(Commitments(out.privateActions), Commitments(drafted));
  }

  /** What a private account's id is derived from. */
  datatype IdPreimage = IdPreimage(npk: Bytes32, vpk: Data, kind: PrivateAccountKind)

  function IdPreimageAt(x: Crypto, ids: seq<InputAccountIdentity>, s: Exec, pos: nat): IdPreimage
    requires pos < |ids| && ids[pos].PrivateIdentity? && (ids[pos].evidence.kind.Pda? ==> BoundAt(s, pos).Some?)
  {
    var w := ids[pos].evidence;
    IdPreimage(WitnessNpk(x, w.nullifier), w.vpk, KindOf(w, BoundAt(s, pos)))
  }

  /** Neither the two account ids nor the two nullifier public keys collide. */
  ghost predicate KeysDoNotCollide(x: Crypto, p: IdPreimage, q: IdPreimage, nsk: Bytes32, nsk': Bytes32)
  {
    && (IdForKind(x, p.npk, p.vpk, p.kind) == IdForKind(x, q.npk, q.vpk, q.kind) ==> p == q)
    && (x.npkOf(nsk) == x.npkOf(nsk') ==> nsk == nsk')
  }

  /** An accepted update of an account spends it with the key of its owner: the witness's key derives
      the npk the id was derived from. */
  lemma {:induction false} UpdateUsesOwnersKey(
    x: Crypto, ids: seq<InputAccountIdentity>, program: ProgramId, outputs: seq<ProgramOutput>, s: Exec, pos: nat,
    ids': seq<InputAccountIdentity>, program': ProgramId, outputs': seq<ProgramOutput>, s': Exec, pos': nat, nsk: Bytes32)
    requires AcceptedAs(x, ids, program, outputs, s) && pos < |ids| && ids[pos].PrivateIdentity?
    requires AcceptedAs(x, ids', program', outputs', s') && pos' < |ids'| && ids'[pos'].PrivateIdentity?
    requires ids'[pos'].evidence.nullifier.Update? && s'.preStates[pos'].accountId == s.preStates[pos].accountId
    requires x.npkOf(nsk) == WitnessNpk(x, ids[pos].evidence.nullifier)
    requires KeysDoNotCollide(x, IdPreimageAt(x, ids, s, pos), IdPreimageAt(x, ids', s', pos'), nsk, ids'[pos'].evidence.nullifier.nsk)
    ensures ids'[pos'].evidence.nullifier.nsk == nsk
  {
    KindRederivesId(x, ids, program, outputs, s, pos);
    KindRederivesId(x, ids', program', outputs', s', pos');
    hide AcceptedAs;
  }

  /** The life of a private account across transactions: the owner reads its state from one
      transaction, and a later accepted transaction that updates the account from that state reveals
      exactly the nullifier the owner's wallet awaits, computed with the owner's own key, under the
      root that the commitment revealed earlier opens. */
  lemma {:induction false} NextUpdateIsAwaited(
    x: Crypto, c: Sealing,
    ids: seq<InputAccountIdentity>, program: ProgramId, outputs: seq<ProgramOutput>, s: Exec,
    dummies: seq<DummyInput>, out: CircuitOutput, pos: nat, vsk: Bytes32, nsk: Bytes32,
    ids': seq<InputAccountIdentity>, program': ProgramId, outputs': seq<ProgramOutput>, s': Exec,
    dummies': seq<DummyInput>, out': CircuitOutput, pos': nat)
    returns (k: nat, found: Found, k': nat)
    requires AcceptedAs(x, ids, program, outputs, s) && Reveals(x, c, ids, s, dummies, out)
    requires pos < |ids| && ids[pos].PrivateIdentity? && Opens(c, vsk, ids[pos].evidence.vpk)
    requires x.npkOf(nsk) == WitnessNpk(x, ids[pos].evidence.nullifier)
    requires AcceptedAs(x, ids', program', outputs', s') && Reveals(x, c, ids', s', dummies', out')
    requires pos' < |ids'| && ids'[pos'].PrivateIdentity? && ids'[pos'].evidence.nullifier.Update?
    requires s'.preStates[pos'].accountId == s.preStates[pos].accountId
    requires s'.preStates[pos'].account
             == SealedAccount(c, ids[pos].evidence.nullifier, s.preStates[pos], s.postStates[s.preStates[pos].accountId])
    requires KeysDoNotCollide(x, IdPreimageAt(x, ids, s, pos), IdPreimageAt(x, ids', s', pos'), nsk, ids'[pos'].evidence.nullifier.nsk)
    ensures k < |out.privateActions| && k' < |out'.privateActions|
    ensures ReadNote(x, c, x.npkOf(nsk), ids[pos].evidence.vpk, vsk, out.privateActions[k]) == Some(found)
    ensures c.commitment(found.accountId, found.account) in Commitments(out.privateActions)
    ensures out'.privateActions[k'].nullifier == AwaitedNullifier(c, found, nsk)
    ensures out'.privateActions[k'].root
            == c.pathDigest(c.commitment(found.accountId, found.account), ids'[pos'].evidence.nullifier.membershipProof)
  {
    k := OwnerRecoversAccount(x, c, ids, program, outputs, s, dummies, out, pos, vsk);
    found := ReadNote(x, c, x.npkOf(nsk), ids[pos].evidence.vpk, vsk, out.privateActions[k]).value;
    UpdateUsesOwnersKey(x, ids, program, outputs, s, pos, ids', program', outputs', s', pos', nsk);
    hide Derive, Reveals, Opens, ReadNote, KindOf, KeysDoNotCollide, Sealable;
    k' := SealIsRevealed(x, c, ids', s', dummies', out', pos');
  }

  // ---- credentials ----

  /** The transaction holds a key from which the id of the regular private account at `pos` derives. */
  ghost predicate HoldsKey(x: Crypto, ids: seq<InputAccountIdentity>, s: Exec, pos: nat)
    requires pos < |ids| && pos < |s.preStates| && ids[pos].PrivateIdentity? && ids[pos].evidence.kind.Regular?
  {
    var w := ids[pos].evidence;
    && w.kind.ask.Some?
    && x.regularAccount(Keys(x.npkOf(x.nskOf(w.kind.ask.value)), w.vpk, w.identifier)) == s.preStates[pos].accountId
  }

  /** The call was given a seed that derives `id` as a public program-derived account. */
  ghost predicate PubliclyGranted(x: Crypto, frame: Frame, id: AccountId)
  {
    exists b :: GrantsPublic(x, frame.caller, frame.call.pdaSeeds, id, b)
  }

  /** If any call of an accepted transaction presents a regular private account as authorized, then
      the transaction holds a key from which the account's id derives. The one way around it is a
      hash collision: a seed given to the call or to an ancestor that derives the same id publicly. */
  lemma {:induction false} RegularAccountNeedsItsKey(
    x: Crypto, ids: seq<InputAccountIdentity>, program: ProgramId, outputs: seq<ProgramOutput>, s: Exec,
    f: Calls, v: Visit, pos: nat)
    requires AcceptedAs(x, ids, program, outputs, s) && IsCallTree(x, program, outputs, f)
    requires v in Visits(f, [RootFrame(program, outputs[0])], [])
    requires pos < |ids| && ids[pos].PrivateIdentity? && ids[pos].evidence.kind.Regular?
    requires s.preStates[pos].accountId in AuthorizedIn(v.self.output.preStates)
    ensures || HoldsKey(x, ids, s, pos)
            || exists k :: 0 <= k < |v.ancestors + [v.self]|
                           && PubliclyGranted(x, (v.ancestors + [v.self])[k].frame, s.preStates[pos].accountId)
  {
    var id := s.preStates[pos].accountId;
    hide Derive, Visits, IsCallTree, AuthorizedIn, AuthorizedByAll, Granted, PubliclyGranted, FreelyAuthorized, HoldsKey;
    hide Sealable, AllKnown, Consistent, Total, Lists;
    PresentedIsListed(v.self.output, id);
    AcceptedAuthority(x, ids, program, outputs, f, v, id);
    AcceptedThreading(x, ids, program, outputs);
    PositionOfDistinct(s.preStates, pos);
    if FreelyAuthorized(x, ids, s.preStates, id) {
      JournaledRegularHoldsKey(x, ids, s, pos);
    } else {
      var calls := v.ancestors + [v.self];
      var k :| 0 <= k < |calls| && Lists(calls[k].output, id) && Granted(x, ids, s.preStates, calls[k].frame, id);
      RegularGrantIsPublic(x, ids, s.preStates, pos, calls[k].frame);
    }
  }

  lemma {:induction false} PresentedIsListed(out: ProgramOutput, id: AccountId)
    requires id in AuthorizedIn(out.preStates)
    ensures Lists(out, id)
  {
  }

  lemma {:induction false} JournaledRegularHoldsKey(x: Crypto, ids: seq<InputAccountIdentity>, s: Exec, pos: nat)
    requires Sealable(x, ids, s) && Distinct(IdsOf(s.preStates))
    requires pos < |ids| && ids[pos].PrivateIdentity? && ids[pos].evidence.kind.Regular?
    requires FreelyAuthorized(x, ids, s.preStates, s.preStates[pos].accountId)
    ensures HoldsKey(x, ids, s, pos)
  {
    assert CanSeal(x, ids[pos].evidence, BoundAt(s, pos), s.preStates[pos]);
    var i :| 0 <= i < |s.preStates| && s.preStates[i].accountId == s.preStates[pos].accountId && s.preStates[i].isAuthorized;
    assert IdsOf(s.preStates)[i] == IdsOf(s.preStates)[pos];
  }

  /** A regular private account has no keys to derive it as a private program-derived one. */
  lemma {:induction false} RegularGrantIsPublic(
    x: Crypto, ids: seq<InputAccountIdentity>, journal: seq<AccountWithMetadata>, pos: nat, frame: Frame)
    requires pos < |journal| && pos < |ids| && PositionIn(journal, journal[pos].accountId) == Some(pos)
    requires ids[pos].PrivateIdentity? && ids[pos].evidence.kind.Regular?
    requires Granted(x, ids, journal, frame, journal[pos].accountId)
    ensures PubliclyGranted(x, frame, journal[pos].accountId)
  {
    var id := journal[pos].accountId;
    var b: Binding :| frame.caller.programId == Some(b.program) && b.seed in frame.call.pdaSeeds && Derives(x, ids, b, pos, id);
    assert GrantsPublic(x, frame.caller, frame.call.pdaSeeds, id, b);
  }

  lemma {:induction false} PositionOfDistinct(pres: seq<AccountWithMetadata>, pos: nat)
    requires Distinct(IdsOf(pres)) && pos < |pres|
    ensures PositionIn(pres, pres[pos].accountId) == Some(pos)
  {
    var r := PositionIn(pres, pres[pos].accountId);
    assert IdsOf(pres)[r.value] == IdsOf(pres)[pos];
  }

  // ---- nullifiers ----

  /** What a nullifier is the hash of. */
  datatype Preimage = InitOf(id: AccountId) | UpdateOf(id: AccountId, account: Account, nsk: Bytes32) | DummyOf(seed: Bytes32)

  function HashOf(c: Sealing, p: Preimage): Bytes32
  {
    match p
    case InitOf(id) => c.initNullifier(id)
    case UpdateOf(id, account, nsk) => c.updateNullifier(c.commitment(id, account), nsk)
    case DummyOf(seed) => c.dummyNullifier(seed)
  }

  function PreimageOf(w: NullifierWitness, pre: AccountWithMetadata): Preimage
  {
    match w
    case Init(_, _) => InitOf(pre.accountId)
    case Update(_, nsk, _) => UpdateOf(pre.accountId, pre.account, nsk)
  }

  /** The preimages of the private accounts among the first `n`. */
  function SpentPreimages(ids: seq<InputAccountIdentity>, pres: seq<AccountWithMetadata>, n: nat): seq<Preimage>
    requires n <= |ids| == |pres|
  {
    if n == 0 then []
    else if ids[n - 1].PublicIdentity? then SpentPreimages(ids, pres, n - 1)
    else SpentPreimages(ids, pres, n - 1) + [PreimageOf(ids[n - 1].evidence.nullifier, pres[n - 1])]
  }

  function DummyPreimages(dummies: seq<DummyInput>): seq<Preimage>
  {
    Mapped((d: DummyInput) => DummyOf(d.nullifierSeed), dummies)
  }

  /** Everything a transaction hashes into a nullifier. */
  function AllPreimages(
    ids: seq<InputAccountIdentity>, pres: seq<AccountWithMetadata>, dummies: seq<DummyInput>): seq<Preimage>
    requires |ids| == |pres|
  {
    SpentPreimages(ids, pres, |ids|) + DummyPreimages(dummies)
  }

  /** No two different ones of these values have the same hash. */
  ghost predicate NoCollisions(c: Sealing, preimages: seq<Preimage>)
  {
    forall p, q :: p in preimages && q in preimages && HashOf(c, p) == HashOf(c, q) ==> p == q
  }

  /** The sealed nullifiers are the hashes of the spent preimages, and those are of distinct accounts. */
  lemma {:induction false} SealedNullifiers(
    x: Crypto, c: Sealing, ids: seq<InputAccountIdentity>, s: Exec, pairs: seq<ExitPair>, n: nat)
    requires Sealable(x, ids, s) && n <= |ids| == |pairs| && Distinct(IdsOf(s.preStates))
    ensures var sealed, spent := SealedPairs(x, c, ids, s, pairs, n), SpentPreimages(ids, s.preStates, n);
            && |sealed| == |spent| && Distinct(spent)
            && (forall k :: 0 <= k < |spent| ==> sealed[k].nullifier == HashOf(c, spent[k]) && !spent[k].DummyOf?)
            && (forall k :: 0 <= k < |spent| ==> exists i :: 0 <= i < n && s.preStates[i].accountId == spent[k].id)
  {
    if n > 0 {
      SealedNullifiers(x, c, ids, s, pairs, n - 1);
      forall i | 0 <= i < n - 1
        ensures s.preStates[i].accountId != s.preStates[n - 1].accountId
      {
        assert IdsOf(s.preStates)[i] != IdsOf(s.preStates)[n - 1];
      }
    }
  }

  function Seeds(dummies: seq<DummyInput>): seq<Bytes32>
  {
    Mapped((d: DummyInput) => d.nullifierSeed, dummies)
  }

  /** No nullifier is revealed twice. */
  lemma {:induction false} DraftNullifiersDistinct(
    x: Crypto, c: Sealing, ids: seq<InputAccountIdentity>, s: Exec, dummies: seq<DummyInput>)
    requires Sealable(x, ids, s) && AllKnown(s) && Distinct(IdsOf(s.preStates)) && Distinct(Seeds(dummies))
    requires NoCollisions(c, AllPreimages(ids, s.preStates, dummies))
    ensures Distinct(Nullifiers(Drafted(x, c, ids, s, dummies)))
  {
    SealedNullifiers(x, c, ids, s, ExitPairs(s), |ids|);
    var spent, padding := SpentPreimages(ids, s.preStates, |ids|), DummyPreimages(dummies);
    var drafted, all := Drafted(x, c, ids, s, dummies), spent + padding;
    hide SealedPairs, SpentPreimages, Sealable;
    forall i, j | 0 <= i < j < |all|
      ensures all[i] != all[j]
    {
      if i >= |spent| {
        assert Seeds(dummies)[i - |spent|] != Seeds(dummies)[j - |spent|];
      }
    }
    forall i | 0 <= i < |all|
      ensures Nullifiers(drafted)[i] == HashOf(c, all[i]) && all[i] in all
    {
    }
  }

  lemma {:induction false} DistinctNullifiersFixSpends(actions: seq<PrivateAction>)
    requires Distinct(Nullifiers(actions))
    ensures SpendsFixedByNullifier(actions)
  {
    forall a, b | a in actions && b in actions && a.nullifier == b.nullifier
      ensures SpendOf(a) == SpendOf(b)
    {
      var i :| 0 <= i < |actions| && actions[i] == a;
      var j :| 0 <= j < |actions| && actions[j] == b;
      assert Nullifiers(actions)[i] == Nullifiers(actions)[j];
    }
  }

  lemma {:induction false} PaddingPermutes(c: Sealing, dummies: seq<DummyInput>, dummies': seq<DummyInput>)
    requires Permutes(dummies, dummies')
    ensures Permutes(Padding(c, dummies), Padding(c, dummies'))
  {
    var f := d => SealDummy(c, d);
    MapPermutes(f, dummies, dummies');
    assert Padding(c, dummies) == Mapped(f, dummies) && Padding(c, dummies') == Mapped(f, dummies');
  }

  /** What an accepted transaction reveals is fixed: it depends neither on how the sorts break ties
      nor on the order of the padding, and no nullifier occurs in it twice. */
  lemma {:induction false} RevealedIsCanonical(
    x: Crypto, c: Sealing, ids: seq<InputAccountIdentity>, program: ProgramId, outputs: seq<ProgramOutput>, s: Exec,
    dummies: seq<DummyInput>, dummies': seq<DummyInput>, out: CircuitOutput, out': CircuitOutput)
    requires AcceptedAs(x, ids, program, outputs, s) && Distinct(Seeds(dummies))
    requires NoCollisions(c, AllPreimages(ids, s.preStates, dummies))
    requires Permutes(dummies, dummies')
    requires Reveals(x, c, ids, s, dummies, out) && Reveals(x, c, ids, s, dummies', out')
    ensures out.publicActions == out'.publicActions && out.privateActions == out'.privateActions
  {
    AcceptedThreading(x, ids, program, outputs);
    var drafted, drafted' := Drafted(x, c, ids, s, dummies), Drafted(x, c, ids, s, dummies');
    PaddingPermutes(c, dummies, dummies');
    DraftNullifiersDistinct(x, c, ids, s, dummies);
    DistinctNullifiersFixSpends(drafted);
    hide Derive, Obfuscates, NoCollisions, SealedPairs, SpendsFixedByNullifier;
    FixedSpendsAreCanonical(drafted, drafted, drafted', out.privateActions, out'.privateActions);
  }

  // ---- value ----

  function PreTotal(pairs: seq<ExitPair>): nat
  {
    if pairs == [] then 0 else PreTotal(pairs[..|pairs| - 1]) + pairs[|pairs| - 1].pre.account.balance
  }

  function PostTotal(pairs: seq<ExitPair>): nat
  {
    if pairs == [] then 0 else PostTotal(pairs[..|pairs| - 1]) + pairs[|pairs| - 1].post.balance
  }

  /** What the private accounts among the first `n` held before. */
  function HiddenBefore(ids: seq<InputAccountIdentity>, pairs: seq<ExitPair>, n: nat): nat
    requires n <= |ids| == |pairs|
  {
    if n == 0 then 0
    else HiddenBefore(ids, pairs, n - 1) + if ids[n - 1].PrivateIdentity? then pairs[n - 1].pre.account.balance else 0
  }

  /** What is sealed into the notes of the private accounts among the first `n`. */
  function HiddenAfter(c: Sealing, ids: seq<InputAccountIdentity>, pairs: seq<ExitPair>, n: nat): nat
    requires n <= |ids| == |pairs|
  {
    if n == 0 then 0
    else
      HiddenAfter(c, ids, pairs, n - 1)
      + if ids[n - 1].PrivateIdentity? then SealedAccount(c, ids[n - 1].evidence.nullifier, pairs[n - 1].pre, pairs[n - 1].post).balance else 0
  }

  /** What the updated private accounts among the first `n` held: only these were committed to before. */
  function SpentBefore(ids: seq<InputAccountIdentity>, pairs: seq<ExitPair>, n: nat): nat
    requires n <= |ids| == |pairs|
  {
    if n == 0 then 0
    else
      SpentBefore(ids, pairs, n - 1)
      + if ids[n - 1].PrivateIdentity? && ids[n - 1].evidence.nullifier.Update? then pairs[n - 1].pre.account.balance else 0
  }

  /** A private account that brings no commitment was found as the default account. */
  lemma {:induction false} NewAccountsAreEmpty(x: Crypto, ids: seq<InputAccountIdentity>, s: Exec, pos: nat)
    requires Sealable(x, ids, s) && pos < |ids| && ids[pos].PrivateIdentity? && ids[pos].evidence.nullifier.Init?
    ensures s.preStates[pos].account == Account(DEFAULT_PROGRAM_OWNER, 0, [], 0)
  {
    assert CanSeal(x, ids[pos].evidence, BoundAt(s, pos), s.preStates[pos]);
  }

  lemma {:induction false} HiddenWasCommitted(x: Crypto, ids: seq<InputAccountIdentity>, s: Exec, n: nat)
    requires Sealable(x, ids, s) && AllKnown(s) && n <= |ids|
    ensures HiddenBefore(ids, ExitPairs(s), n) == SpentBefore(ids, ExitPairs(s), n)
  {
    if n > 0 {
      HiddenWasCommitted(x, ids, s, n - 1);
      if ids[n - 1].PrivateIdentity? && ids[n - 1].evidence.nullifier.Init? {
        NewAccountsAreEmpty(x, ids, s, n - 1);
      }
    }
  }

  lemma {:induction false} TotalsSnoc(pairs: seq<ExitPair>, p: ExitPair)
    ensures PreTotal(pairs + [p]) == PreTotal(pairs) + p.pre.account.balance
    ensures PostTotal(pairs + [p]) == PostTotal(pairs) + p.post.balance
  {
    assert (pairs + [p])[..|pairs|] == pairs;
  }

  lemma {:induction false} SealingKeepsBalance(c: Sealing, w: NullifierWitness, pre: AccountWithMetadata, post: Account)
    ensures SealedAccount(c, w, pre, post).balance == post.balance
  {
  }

  lemma {:induction false} TotalsSplit(c: Sealing, ids: seq<InputAccountIdentity>, pairs: seq<ExitPair>, n: nat)
    requires n <= |ids| == |pairs|
    ensures PreTotal(pairs[..n]) == PreTotal(PublicPairs(ids, pairs, n)) + HiddenBefore(ids, pairs, n)
    ensures PostTotal(pairs[..n]) == PostTotal(PublicPairs(ids, pairs, n)) + HiddenAfter(c, ids, pairs, n)
  {
    if n > 0 {
      hide PreTotal, PostTotal, SealedAccount;
      TotalsSplit(c, ids, pairs, n - 1);
      if ids[n - 1].PrivateIdentity? {
        SealingKeepsBalance(c, ids[n - 1].evidence.nullifier, pairs[n - 1].pre, pairs[n - 1].post);
      }
      assert pairs[..n] == pairs[..n - 1] + [pairs[n - 1]];
      TotalsSnoc(pairs[..n - 1], pairs[n - 1]);
      TotalsSnoc(PublicPairs(ids, pairs, n - 1), pairs[n - 1]);
    }
  }

  lemma {:induction false} TotalsOfExit(s: Exec, n: nat)
    requires AllKnown(s) && n <= |s.preStates|
    ensures PreTotal(ExitPairs(s)[..n]) == Total(PreBalances(s.preStates)[..n])
    ensures PostTotal(ExitPairs(s)[..n]) == Total(CurrentBalances(s.preStates, s.postStates)[..n])
  {
    if n > 0 {
      TotalsOfExit(s, n - 1);
      assert ExitPairs(s)[..n][..n - 1] == ExitPairs(s)[..n - 1];
      var pre, now := PreBalances(s.preStates), CurrentBalances(s.preStates, s.postStates);
      assert pre[..n][..n - 1] == pre[..n - 1] && now[..n][..n - 1] == now[..n - 1];
    }
  }

  /** An action spends the commitment to the account as found, under the root that commitment opens. */
  ghost predicate OpenedIn(c: Sealing, w: NullifierWitness, pre: AccountWithMetadata, actions: seq<PrivateAction>)
    requires w.Update?
  {
    var spent := c.commitment(pre.accountId, pre.account);
    exists k :: && 0 <= k < |actions| && actions[k].nullifier == c.updateNullifier(spent, w.nsk)
                && actions[k].root == c.pathDigest(spent, w.membershipProof)
  }

  lemma {:induction false} UpdateIsOpened(
    x: Crypto, c: Sealing, ids: seq<InputAccountIdentity>, s: Exec, dummies: seq<DummyInput>, out: CircuitOutput, pos: nat)
    requires Sealable(x, ids, s) && AllKnown(s) && Reveals(x, c, ids, s, dummies, out)
    requires pos < |ids| && ids[pos].PrivateIdentity? && ids[pos].evidence.nullifier.Update?
    ensures OpenedIn(c, ids[pos].evidence.nullifier, s.preStates[pos], out.privateActions)
  {
    hide Reveals, Sealable;
    var a, k := PrivateAccountIsRevealed(x, c, ids, s, dummies, out, pos);
    assert out.privateActions[k].nullifier == a.nullifier && out.privateActions[k].root == a.root;
  }

  /** Value is conserved across what is revealed and what is sealed: public balances before plus the
      balances of updated private accounts, each opened against a revealed root by its old commitment,
      are public balances after plus the balances sealed into notes. New private accounts bring none. */
  lemma {:induction false} ValueIsConserved(
    x: Crypto, c: Sealing, ids: seq<InputAccountIdentity>, program: ProgramId, outputs: seq<ProgramOutput>, s: Exec,
    dummies: seq<DummyInput>, out: CircuitOutput)
    requires AcceptedAs(x, ids, program, outputs, s) && Reveals(x, c, ids, s, dummies, out)
    ensures var pairs := ExitPairs(s);
            && PreTotal(out.publicActions) + SpentBefore(ids, pairs, |ids|)
               == PostTotal(out.publicActions) + HiddenAfter(c, ids, pairs, |ids|)
            && HiddenBefore(ids, pairs, |ids|) == SpentBefore(ids, pairs, |ids|)
    ensures UpdatesAreOpened(c, ids, s, out)
  {
    BalancesBalance(x, c, ids, program, outputs, s, dummies, out);
    HiddenWasCommitted(x, ids, s, |ids|);
    hide Derive, Reveals, Sealable, OpenedIn, SpentBefore, HiddenBefore, HiddenAfter, PreTotal, PostTotal;
    forall pos | 0 <= pos < |ids| && ids[pos].PrivateIdentity? && ids[pos].evidence.nullifier.Update?
      ensures OpenedIn(c, ids[pos].evidence.nullifier, s.preStates[pos], out.privateActions)
    {
      UpdateIsOpened(x, c, ids, s, dummies, out, pos);
    }
  }

  ghost predicate UpdatesAreOpened(c: Sealing, ids: seq<InputAccountIdentity>, s: Exec, out: CircuitOutput)
    requires |ids| == |s.preStates|
  {
    forall pos :: 0 <= pos < |ids| && ids[pos].PrivateIdentity? && ids[pos].evidence.nullifier.Update? ==>
      OpenedIn(c, ids[pos].evidence.nullifier, s.preStates[pos], out.privateActions)
  }

  lemma {:induction false} BalancesBalance(
    x: Crypto, c: Sealing, ids: seq<InputAccountIdentity>, program: ProgramId, outputs: seq<ProgramOutput>, s: Exec,
    dummies: seq<DummyInput>, out: CircuitOutput)
    requires AcceptedAs(x, ids, program, outputs, s) && Reveals(x, c, ids, s, dummies, out)
    ensures var pairs := ExitPairs(s);
            PreTotal(out.publicActions) + HiddenBefore(ids, pairs, |ids|)
            == PostTotal(out.publicActions) + HiddenAfter(c, ids, pairs, |ids|)
  {
    hide Derive, Obfuscates, Drafted, PublicPairs, Total, PreTotal, PostTotal, HiddenBefore, HiddenAfter;
    AcceptedThreading(x, ids, program, outputs);
    var pairs, n := ExitPairs(s), |ids|;
    TotalsSplit(c, ids, pairs, n);
    TotalsOfExit(s, n);
    var pre, now := PreBalances(s.preStates), CurrentBalances(s.preStates, s.postStates);
    assert pairs[..n] == pairs && pre[..n] == pre && now[..n] == now;
  }
}
