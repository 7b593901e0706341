/** The ledger state and how a validated diff is written to it
    (`lee/state_machine/src/state/mod.rs`). */
module LedgerState {
  import opened Prelude

  /** A 32-byte array read as a big-endian integer: array order is integer order. */
  type Bytes32 = nat
  type AccountId = Bytes32
  /** The 32 raw bytes of a program id, so `AccountId::from(ProgramId)` is the identity. */
  type ProgramId = Bytes32
  type Hash = Bytes32
  /** A slot of the channel. */
  type Slot = nat
  type Data = seq<nat>
  type Balance = b: nat | b < TWO_128

  const TWO_128: nat := 0x1_0000_0000_0000_0000_0000_0000_0000_0000
  const DEFAULT_PROGRAM_OWNER: AccountId := 0
  const PROGRAM_STORAGE_OWNER: AccountId :=
    0xFFFF_FFFF_FFFF_FFFF_FFFF_FFFF_FFFF_FFFF_FFFF_FFFF_FFFF_FFFF_FFFF_FFFF_FFFF_FFFF

  datatype Account = Account(programOwner: AccountId, balance: Balance, data: Data, nonce: nat)

  const DEFAULT_ACCOUNT: Account := Account(DEFAULT_PROGRAM_OWNER, 0, [], 0)

  datatype Program = Program(id: ProgramId, elf: Data)

  /** Public accounts, the batches of commitments in insertion order (which fix the commitment
      tree and its root history), and the spent nullifiers. */
  datatype State = State(
    publicState: map<AccountId, Account>,
    commitmentBatches: seq<seq<Bytes32>>,
    nullifiers: set<Bytes32>)

  datatype StateDiff = StateDiff(
    signers: seq<AccountId>,
    publicDiff: map<AccountId, Account>,
    newCommitments: seq<Bytes32>,
    newNullifiers: seq<Bytes32>,
    program: Option<Program>)

  function AccountIn(accounts: map<AccountId, Account>, id: AccountId): Account
  {
    if id in accounts then accounts[id] else DEFAULT_ACCOUNT
  }

  function GetAccount(s: State, id: AccountId): Account
  {
    AccountIn(s.publicState, id)
  }

  /** A program is deployed when its storage account has the storage owner. */
  predicate HasProgram(s: State, id: ProgramId)
  {
    id in s.publicState && s.publicState[id].programOwner == PROGRAM_STORAGE_OWNER
  }

  function StorageAccount(program: Program): Account
  {
    DEFAULT_ACCOUNT.(programOwner := PROGRAM_STORAGE_OWNER, data := program.elf)
  }

  function BumpNonce(accounts: map<AccountId, Account>, id: AccountId): map<AccountId, Account>
  {
    var account := AccountIn(accounts, id);
    accounts[id := account.(nonce := account.nonce + 1)]
  }

  function BumpNonces(accounts: map<AccountId, Account>, signers: seq<AccountId>): map<AccountId, Account>
  {
    if signers == [] then accounts
    else BumpNonce(BumpNonces(accounts, signers[..|signers| - 1]), signers[|signers| - 1])
  }

  /** Public entries are overwritten, then each signature bumps its signer's nonce, then a
      deployed program takes over its storage account. */
  function ApplyDiff(s: State, d: StateDiff): State
  {
    var bumped := BumpNonces(s.publicState + d.publicDiff, d.signers);
    State(
      if d.program.Some? then bumped[d.program.value.id := StorageAccount(d.program.value)] else bumped,
      s.commitmentBatches + [d.newCommitments],
      s.nullifiers + set n | n in d.newNullifiers)
  }

  /** The diff deploys a program whose storage account is `id`. */
  predicate DeploysAt(d: StateDiff, id: AccountId)
  {
    d.program.Some? && d.program.value.id == id
  }

  /** `t` is `s` with the diff written, account by account: a deployed program holds its storage
      account, any other account is its entry, or what it was, with one nonce step per signature; new
      commitments come last and exactly the new nullifiers are spent besides the old ones. */
  ghost predicate Writes(s: State, d: StateDiff, t: State)
  {
    && (forall id :: id in t.publicState <==>
          id in s.publicState || id in d.publicDiff || id in d.signers || DeploysAt(d, id))
    && (forall id :: GetAccount(t, id) ==
          if DeploysAt(d, id) then Account(PROGRAM_STORAGE_OWNER, 0, d.program.value.elf, 0)
          else
            var a := if id in d.publicDiff then d.publicDiff[id] else GetAccount(s, id);
            Account(a.programOwner, a.balance, a.data, a.nonce + Signatures(d.signers, id)))
    && t.commitmentBatches == s.commitmentBatches + [d.newCommitments]
    && (forall n :: n in t.nullifiers <==> n in s.nullifiers || n in d.newNullifiers)
  }

  lemma {:induction false} BumpNoncesKeys(accounts: map<AccountId, Account>, signers: seq<AccountId>, id: AccountId)
    ensures id in BumpNonces(accounts, signers) <==> id in accounts || id in signers
  {
    if signers != [] {
      BumpNoncesKeys(accounts, signers[..|signers| - 1], id);
      assert signers == signers[..|signers| - 1] + [signers[|signers| - 1]];
    }
  }

  lemma {:induction false} ApplyDiffWrites(s: State, d: StateDiff)
    ensures Writes(s, d, ApplyDiff(s, d))
  {
    hide BumpNonces;
    var t := ApplyDiff(s, d);
    forall id
      ensures id in t.publicState <==> id in s.publicState || id in d.publicDiff || id in d.signers || DeploysAt(d, id)
    {
      BumpNoncesKeys(s.publicState + d.publicDiff, d.signers, id);
    }
    forall id
      ensures GetAccount(t, id) ==
              if DeploysAt(d, id) then Account(PROGRAM_STORAGE_OWNER, 0, d.program.value.elf, 0)
              else
                var a := if id in d.publicDiff then d.publicDiff[id] else GetAccount(s, id);
                Account(a.programOwner, a.balance, a.data, a.nonce + Signatures(d.signers, id))
    {
      BumpNoncesEffect(s.publicState + d.publicDiff, d.signers, id);
    }
  }

  /** Applying a diff gives the ledger with the diff written, and no other. */
  lemma {:induction false} ApplyDiffIff(s: State, d: StateDiff, t: State)
    ensures t == ApplyDiff(s, d) <==> Writes(s, d, t)
  {
    ApplyDiffWrites(s, d);
    var u := ApplyDiff(s, d);
    hide ApplyDiff;
    if Writes(s, d, t) {
      assert t.publicState.Keys == u.publicState.Keys;
      forall id | id in t.publicState
        ensures t.publicState[id] == u.publicState[id]
      {
        assert GetAccount(t, id) == GetAccount(u, id);
      }
      assert t.publicState == u.publicState;
      assert t.nullifiers == u.nullifiers;
    }
  }

  /** What the signature loop does to one account: only its nonce moves, by the number of times
      the account signed. */
  lemma {:induction false} BumpNoncesEffect(accounts: map<AccountId, Account>, signers: seq<AccountId>, id: AccountId)
    ensures var before := AccountIn(accounts, id);
            AccountIn(BumpNonces(accounts, signers), id) == before.(nonce := before.nonce + Signatures(signers, id))
  {
    if signers != [] {
      BumpNoncesEffect(accounts, signers[..|signers| - 1], id);
    }
  }

  function Signatures(signers: seq<AccountId>, id: AccountId): nat
  {
    if signers == [] then 0
    else Signatures(signers[..|signers| - 1], id) + if signers[|signers| - 1] == id then 1 else 0
  }

  lemma {:induction false} SignsIffListed(signers: seq<AccountId>, id: AccountId)
    ensures Signatures(signers, id) > 0 <==> id in signers
  {
    if signers != [] {
      SignsIffListed(signers[..|signers| - 1], id);
      assert signers == signers[..|signers| - 1] + [signers[|signers| - 1]];
    }
  }

  /** `V03State`: the mutable ledger the node executes on. */
  class V03State {
    var contents: State

    constructor (initial: State)
      ensures contents == initial
    {
      contents := initial;
    }

    method ApplyStateDiff(diff: StateDiff)
      modifies this
      ensures contents == ApplyDiff(old(contents), diff)
      ensures Writes(old(contents), diff, contents)
    {
      ApplyDiffWrites(contents, diff);
      hide Writes, BumpNonces;
      var accounts := OverwriteAccounts(contents.publicState, diff.publicDiff);
      accounts := CountSignatures(accounts, diff.signers);
      if diff.program.Some? {
        accounts := accounts[diff.program.value.id := StorageAccount(diff.program.value)];
      }
      contents := State(accounts, contents.commitmentBatches + [diff.newCommitments],
                        contents.nullifiers + set n | n in diff.newNullifiers);
    }
  }

  method OverwriteAccounts(accounts: map<AccountId, Account>, entries: map<AccountId, Account>)
    returns (r: map<AccountId, Account>)
    ensures r == accounts + entries
  {
    r := accounts;
    var pending := entries.Keys;
    while pending != {}
      invariant pending <= entries.Keys
      invariant r.Keys == accounts.Keys + (entries.Keys - pending)
      invariant forall id :: id in r ==> r[id] == if id in entries && id !in pending then entries[id] else accounts[id]
      decreases pending
    {
      var id :| id in pending;
      r := r[id := entries[id]];
      pending := pending - {id};
    }
  }

  method CountSignatures(accounts: map<AccountId, Account>, signers: seq<AccountId>) returns (r: map<AccountId, Account>)
    ensures r == BumpNonces(accounts, signers)
  {
    r := accounts;
    for signed := 0 to |signers|
      invariant r == BumpNonces(accounts, signers[..signed])
    {
      r := BumpNonce(r, signers[signed]);
      assert signers[..signed + 1][..signed] == signers[..signed];
    }
    assert signers[..|signers|] == signers;
  }
}
