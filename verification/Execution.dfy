/** How one program output updates the execution state of a privacy-preserving transaction
    (`lee/privacy_preserving_circuit/src/execution_state.rs`). A panic or a failed assertion of the
    circuit is a rejection, written `None`. */
module Execution {
  import opened Prelude
  import opened LedgerState
  import opened Programs

  datatype Keys = Keys(npk: Bytes32, vpk: Data, identifier: nat)

  /** A program and one of its seeds. */
  datatype Binding = Binding(program: ProgramId, seed: PdaSeed)

  datatype WitnessKind = Regular(ask: Option<Bytes32>) | Pda(binding: Option<Binding>)

  datatype NullifierWitness =
    | Init(npk: Bytes32, commitmentRoot: Bytes32)
    | Update(viewTag: nat, nsk: Bytes32, membershipProof: Data)

  datatype PrivateWitness = PrivateWitness(
    vpk: Data,
    randomSeed: Bytes32,
    identifier: nat,
    kind: WitnessKind,
    nullifier: NullifierWitness)

  datatype InputAccountIdentity = PublicIdentity | PrivateIdentity(evidence: PrivateWitness)

  /** Proof verification and the account-id and key derivations, about which nothing is assumed. */
  datatype Crypto = Crypto(
    verify: (ProgramId, ProgramOutput) -> bool,
    publicPda: Binding -> AccountId,
    privatePda: (Binding, Keys) -> AccountId,
    regularAccount: Keys -> AccountId,
    nskOf: Bytes32 -> Bytes32,
    npkOf: Bytes32 -> Bytes32)

  function WitnessNpk(x: Crypto, w: NullifierWitness): Bytes32
  {
    match w
    case Init(npk, _) => npk
    case Update(_, nsk, _) => x.npkOf(nsk)
  }

  function WitnessKeys(x: Crypto, w: PrivateWitness): Keys
  {
    Keys(WitnessNpk(x, w.nullifier), w.vpk, w.identifier)
  }

  predicate IsPrivatePda(identity: InputAccountIdentity)
  {
    identity.PrivateIdentity? && identity.evidence.kind.Pda?
  }

  /** The keys supplied for a private PDA at a position, if there is one. */
  function PdaKeysAt(x: Crypto, ids: seq<InputAccountIdentity>, pos: nat): Option<Keys>
  {
    if pos < |ids| && IsPrivatePda(ids[pos]) then Some(WitnessKeys(x, ids[pos].evidence)) else None
  }

  /** The binding a private-PDA witness brings from outside the transaction. */
  function ExternalBinding(ids: seq<InputAccountIdentity>, pos: nat): Option<Binding>
  {
    if pos < |ids| && IsPrivatePda(ids[pos]) then ids[pos].evidence.kind.binding else None
  }

  datatype Exec = Exec(
    preStates: seq<AccountWithMetadata>,
    postStates: map<AccountId, Account>,
    boundPositions: map<nat, Binding>,
    family: map<Binding, AccountId>,
    globallyAuthorized: set<AccountId>)

  const EMPTY_EXEC: Exec := Exec([], map[], map[], map[], {})

  /** First recorded position of an account. */
  function PositionIn(pres: seq<AccountWithMetadata>, id: AccountId): (r: Option<nat>)
    ensures r.Some? ==> r.value < |pres| && pres[r.value].accountId == id
    ensures r.None? ==> forall i :: 0 <= i < |pres| ==> pres[i].accountId != id
    decreases |pres|
  {
    if pres == [] then None
    else if pres[0].accountId == id then Some(0)
    else
      match PositionIn(pres[1..], id)
      case None => None
      case Some(i) => Some(i + 1)
  }

  /** Each `(program, seed)` resolves to one account per transaction. */
  function BindFamily(s: Exec, b: Binding, id: AccountId): Option<Exec>
  {
    if b in s.family && s.family[b] != id then None else Some(s.(family := s.family[b := id]))
  }

  function BindPosition(s: Exec, pos: nat, b: Binding): Option<Exec>
  {
    if pos in s.boundPositions && s.boundPositions[pos] != b then None
    else Some(s.(boundPositions := s.boundPositions[pos := b]))
  }

  /** First seed of the caller that derives `id` as a public PDA. */
  function MatchPublic(x: Crypto, caller: CallerData, seeds: seq<PdaSeed>, id: AccountId): (r: Option<Binding>)
    ensures r.Some? ==> GrantsPublic(x, caller, seeds, id, r.value)
    ensures r.None? && caller.programId.Some? ==>
              forall seed :: seed in seeds ==> x.publicPda(Binding(caller.programId.value, seed)) != id
    ensures r.Some? ==> exists k :: 0 <= k < |seeds| && seeds[k] == r.value.seed && forall j :: 0 <= j < k ==>
              x.publicPda(Binding(r.value.program, seeds[j])) != id
    decreases |seeds|
  {
    if caller.programId.None? || seeds == [] then None
    else
      var b := Binding(caller.programId.value, seeds[0]);
      assert seeds == [seeds[0]] + seeds[1..];
      if x.publicPda(b) == id then Some(b) else MatchPublic(x, caller, seeds[1..], id)
  }

  /** First seed of the caller that derives `id` as a private PDA under the keys supplied for it. */
  function MatchPrivate(
    x: Crypto, keys: Option<Keys>, caller: CallerData, seeds: seq<PdaSeed>, id: AccountId): (r: Option<Binding>)
    ensures r.Some? ==> GrantsPrivate(x, keys, caller, seeds, id, r.value)
    ensures r.None? && keys.Some? && caller.programId.Some? ==>
              forall seed :: seed in seeds ==> x.privatePda(Binding(caller.programId.value, seed), keys.value) != id
    ensures r.Some? ==> exists k :: 0 <= k < |seeds| && seeds[k] == r.value.seed && forall j :: 0 <= j < k ==>
              x.privatePda(Binding(r.value.program, seeds[j]), keys.value) != id
    decreases |seeds|
  {
    if keys.None? || caller.programId.None? || seeds == [] then None
    else
      var b := Binding(caller.programId.value, seeds[0]);
      assert seeds == [seeds[0]] + seeds[1..];
      if x.privatePda(b, keys.value) == id then Some(b) else MatchPrivate(x, keys, caller, seeds[1..], id)
  }

  predicate GrantsPublic(x: Crypto, caller: CallerData, seeds: seq<PdaSeed>, id: AccountId, b: Binding)
  {
    caller.programId == Some(b.program) && b.seed in seeds && x.publicPda(b) == id
  }

  predicate GrantsPrivate(
    x: Crypto, keys: Option<Keys>, caller: CallerData, seeds: seq<PdaSeed>, id: AccountId, b: Binding)
  {
    keys.Some? && caller.programId == Some(b.program) && b.seed in seeds && x.privatePda(b, keys.value) == id
  }

  /** `assert_authorization_and_record_bindings`: an account must be presented as authorized exactly
      when a caller seed derives it, or it is globally authorized, or the caller had it. */
  function CheckAuthorization(
    x: Crypto, ids: seq<InputAccountIdentity>, s: Exec, caller: CallerData, seeds: seq<PdaSeed>,
    id: AccountId, pos: nat, isAuthorized: bool): Option<Exec>
  {
    var public := MatchPublic(x, caller, seeds, id);
    var private := MatchPrivate(x, PdaKeysAt(x, ids, pos), caller, seeds, id);
    var recorded :=
      if public.Some? then BindFamily(s, public.value, id)
      else if private.Some? then
        match BindFamily(s, private.value, id)
        case None => None
        case Some(t) => BindPosition(t, pos, private.value)
      else Some(s);
    var authorized := public.Some? || private.Some? || id in s.globallyAuthorized || id in caller.authorizedAccounts;
    if recorded.Some? && isAuthorized == authorized then recorded else None
  }

  /** A private PDA whose witness names an external binding is bound at first sight. */
  function BindExternal(x: Crypto, ids: seq<InputAccountIdentity>, s: Exec, id: AccountId, pos: nat): Option<Exec>
  {
    match ExternalBinding(ids, pos)
    case None => Some(s)
    case Some(b) =>
      if x.privatePda(b, PdaKeysAt(x, ids, pos).value) != id then None
      else
        match BindPosition(s, pos, b)
        case None => None
        case Some(t) => BindFamily(t, b, id)
  }

  function Journal(s: Exec, pre: AccountWithMetadata): Exec
  {
    s.(preStates := s.preStates + [pre])
  }

  /** An account seen for the first time. A public PDA granted by the caller is journaled as
      unauthorized; any other account presented as authorized is authorized for good. */
  function FirstSight(
    x: Crypto, ids: seq<InputAccountIdentity>, s: Exec, caller: CallerData, seeds: seq<PdaSeed>,
    pre: AccountWithMetadata): Option<Exec>
  {
    var pos := |s.preStates|;
    match BindExternal(x, ids, s, pre.accountId, pos)
    case None => None
    case Some(t) =>
      if PdaKeysAt(x, ids, pos).Some? then
        match CheckAuthorization(x, ids, t, caller, seeds, pre.accountId, pos, pre.isAuthorized)
        case None => None
        case Some(u) => Some(Journal(u, pre))
      else
        match MatchPublic(x, caller, seeds, pre.accountId)
        case None =>
          Some(Journal(if pre.isAuthorized then t.(globallyAuthorized := t.globallyAuthorized + {pre.accountId}) else t, pre))
        case Some(b) =>
          if !pre.isAuthorized then None
          else
            match BindFamily(t, b, pre.accountId)
            case None => None
            case Some(u) => Some(Journal(u, pre.(isAuthorized := false)))
  }

  /** An account seen before must be presented as the transaction last left it. */
  function SeenAgain(
    x: Crypto, ids: seq<InputAccountIdentity>, s: Exec, caller: CallerData, seeds: seq<PdaSeed>,
    pre: AccountWithMetadata): Option<Exec>
    requires pre.accountId in s.postStates
  {
    if s.postStates[pre.accountId] != pre.account then None
    else
      match PositionIn(s.preStates, pre.accountId)
      case None => None
      case Some(pos) => CheckAuthorization(x, ids, s, caller, seeds, pre.accountId, pos, pre.isAuthorized)
  }

  function Admit(
    x: Crypto, ids: seq<InputAccountIdentity>, s: Exec, caller: CallerData, seeds: seq<PdaSeed>,
    pre: AccountWithMetadata): Option<Exec>
  {
    if pre.accountId in s.postStates then SeenAgain(x, ids, s, caller, seeds, pre)
    else FirstSight(x, ids, s, caller, seeds, pre)
  }

  /** A claim: only uninitialized accounts, public ones by authorization or by deriving them,
      private ones freely except that a PDA claim must derive the account from the supplied keys. */
  function CheckClaim(
    x: Crypto, ids: seq<InputAccountIdentity>, s: Exec, program: ProgramId, pre: AccountWithMetadata,
    post: AccountPostState): Option<Exec>
  {
    if post.claim.None? then Some(s)
    else if post.account.programOwner != DEFAULT_PROGRAM_OWNER then None
    else
      match PositionIn(s.preStates, pre.accountId)
      case None => None
      case Some(pos) =>
        if pos >= |ids| then None
        else
          match post.claim.value
          case AuthorizedClaim => if ids[pos].PublicIdentity? && !pre.isAuthorized then None else Some(s)
          case PdaClaim(seed) =>
            var b := Binding(program, seed);
            if ids[pos].PublicIdentity? then
              if x.publicPda(b) != pre.accountId then None else BindFamily(s, b, pre.accountId)
            else
              match PdaKeysAt(x, ids, pos)
              case None => None
              case Some(keys) =>
                if x.privatePda(b, keys) != pre.accountId then None
                else
                  match BindPosition(s, pos, b)
                  case None => None
                  case Some(t) => BindFamily(t, b, pre.accountId)
  }

  /** The account as it stands after the call: a claim makes the program its owner. */
  function Settled(program: ProgramId, post: AccountPostState): Account
  {
    if post.claim.Some? then post.account.(programOwner := program) else post.account
  }

  function SyncOne(
    x: Crypto, ids: seq<InputAccountIdentity>, s: Exec, program: ProgramId, caller: CallerData,
    seeds: seq<PdaSeed>, pre: AccountWithMetadata, post: AccountPostState): Option<Exec>
  {
    match Admit(x, ids, s, caller, seeds, pre)
    case None => None
    case Some(t) =>
      match CheckClaim(x, ids, t, program, pre, post)
      case None => None
      case Some(u) => Some(u.(postStates := u.postStates[pre.accountId := Settled(program, post)]))
  }

  /** The first `n` pairs of a call. */
  function SyncUpTo(
    x: Crypto, ids: seq<InputAccountIdentity>, s: Exec, program: ProgramId, caller: CallerData,
    seeds: seq<PdaSeed>, pres: seq<AccountWithMetadata>, posts: seq<AccountPostState>, n: nat): Option<Exec>
    requires n <= |pres| && n <= |posts|
  {
    if n == 0 then Some(s)
    else
      match SyncUpTo(x, ids, s, program, caller, seeds, pres, posts, n - 1)
      case None => None
      case Some(t) => SyncOne(x, ids, t, program, caller, seeds, pres[n - 1], posts[n - 1])
  }

  /** The accounts an output presents as authorized. */
  function AuthorizedIn(pres: seq<AccountWithMetadata>): set<AccountId>
  {
    set i | 0 <= i < |pres| && pres[i].isAuthorized :: pres[i].accountId
  }

  // ---- what every step keeps ----

  /** An account id re-derives from a binding, publicly or under the keys supplied for its place. */
  predicate Derives(x: Crypto, ids: seq<InputAccountIdentity>, b: Binding, pos: nat, id: AccountId)
  {
    || x.publicPda(b) == id
    || (PdaKeysAt(x, ids, pos).Some? && x.privatePda(b, PdaKeysAt(x, ids, pos).value) == id)
  }

  /** Journaled ids are distinct and are exactly the accounts with a current state. */
  ghost predicate Threaded(s: Exec)
  {
    Distinct(IdsOf(s.preStates)) && s.postStates.Keys == IdSet(IdsOf(s.preStates))
  }

  /** Journaled as authorized, at a place without keys for a private PDA. */
  ghost predicate FreelyAuthorized(
    x: Crypto, ids: seq<InputAccountIdentity>, pres: seq<AccountWithMetadata>, id: AccountId)
  {
    exists i: nat :: i < |pres| && pres[i].accountId == id && pres[i].isAuthorized && PdaKeysAt(x, ids, i).None?
  }

  /** The globally authorized accounts are exactly the freely authorized ones. */
  ghost predicate GlobalsJournaled(x: Crypto, ids: seq<InputAccountIdentity>, s: Exec)
  {
    forall id :: id in s.globallyAuthorized <==> FreelyAuthorized(x, ids, s.preStates, id)
  }

  /** A bound position re-derives its account from the supplied keys, and its binding resolves to
      that account. */
  ghost predicate PositionBound(x: Crypto, ids: seq<InputAccountIdentity>, s: Exec, pos: nat, b: Binding)
  {
    && pos < |s.preStates|
    && PdaKeysAt(x, ids, pos).Some?
    && x.privatePda(b, PdaKeysAt(x, ids, pos).value) == s.preStates[pos].accountId
    && b in s.family && s.family[b] == s.preStates[pos].accountId
  }

  ghost predicate PositionsBound(x: Crypto, ids: seq<InputAccountIdentity>, s: Exec)
  {
    forall pos :: pos in s.boundPositions ==> PositionBound(x, ids, s, pos, s.boundPositions[pos])
  }

  /** Every resolved binding derives a journaled account. */
  ghost predicate FamilySound(x: Crypto, ids: seq<InputAccountIdentity>, s: Exec)
  {
    forall b :: b in s.family ==>
      exists pos: nat :: pos < |s.preStates| && s.preStates[pos].accountId == s.family[b] && Derives(x, ids, b, pos, s.family[b])
  }

  /** A journaled private PDA whose witness names a binding is bound to exactly that. */
  ghost predicate ExternalsBound(ids: seq<InputAccountIdentity>, s: Exec)
  {
    forall pos: nat :: pos < |s.preStates| && ExternalBinding(ids, pos).Some? ==>
      pos in s.boundPositions && s.boundPositions[pos] == ExternalBinding(ids, pos).value
  }
}
