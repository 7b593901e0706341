/** Program outputs and the rules a well-behaved execution obeys
    (`lee/state_machine/core/src/program/mod.rs`). */
module Programs {
  import opened Prelude
  import opened LedgerState

  type PdaSeed = Bytes32

  const MAX_NUMBER_CHAINED_CALLS: nat := 10

  datatype AccountWithMetadata = AccountWithMetadata(account: Account, isAuthorized: bool, accountId: AccountId)

  datatype Claim = AuthorizedClaim | PdaClaim(seed: PdaSeed)

  datatype AccountPostState = AccountPostState(account: Account, claim: Option<Claim>)

  datatype ChainedCall = ChainedCall(
    programId: ProgramId,
    preStates: seq<AccountWithMetadata>,
    instructionData: Data,
    pdaSeeds: seq<PdaSeed>)

  datatype CallerData = CallerData(programId: Option<ProgramId>, authorizedAccounts: set<AccountId>)

  /** Valid from `from`, inclusive, to `to`, exclusive. */
  datatype ValidityWindow = ValidityWindow(from: Option<nat>, to: Option<nat>)

  datatype ProgramOutput = ProgramOutput(
    selfProgramId: ProgramId,
    callerProgramId: Option<ProgramId>,
    instructionData: Data,
    preStates: seq<AccountWithMetadata>,
    postStates: seq<AccountPostState>,
    chainedCalls: seq<ChainedCall>,
    blockWindow: ValidityWindow,
    timestampWindow: ValidityWindow)

  // ---- validity windows ----

  predicate ValidFor(w: ValidityWindow, v: nat)
  {
    (w.from.Some? ==> w.from.value <= v) && (w.to.Some? ==> v < w.to.value)
  }

  function LatestStart(ws: seq<ValidityWindow>): Option<nat>
  {
    if ws == [] then None
    else
      var rest, first := LatestStart(ws[1..]), ws[0].from;
      if first.None? then rest
      else if rest.None? then first
      else if first.value >= rest.value then first else rest
  }

  function EarliestEnd(ws: seq<ValidityWindow>): Option<nat>
  {
    if ws == [] then None
    else
      var rest, first := EarliestEnd(ws[1..]), ws[0].to;
      if first.None? then rest
      else if rest.None? then first
      else if first.value <= rest.value then first else rest
  }

  /** The common window of all outputs, refused when its bounds are both set and cross. */
  function CommonWindow(ws: seq<ValidityWindow>): Option<ValidityWindow>
  {
    var w := ValidityWindow(LatestStart(ws), EarliestEnd(ws));
    if w.from.Some? && w.to.Some? && w.from.value >= w.to.value then None else Some(w)
  }

  /** `v` lies in every window. */
  ghost predicate ValidForAll(ws: seq<ValidityWindow>, v: nat)
  {
    forall i :: 0 <= i < |ws| ==> ValidFor(ws[i], v)
  }

  lemma {:induction false} WindowIsIntersection(ws: seq<ValidityWindow>, v: nat)
    ensures ValidFor(ValidityWindow(LatestStart(ws), EarliestEnd(ws)), v) <==> ValidForAll(ws, v)
  {
    if ws != [] {
      WindowIsIntersection(ws[1..], v);
      assert ValidForAll(ws, v) <==> ValidFor(ws[0], v) && ValidForAll(ws[1..], v);
    }
  }

  /** A transaction is valid exactly where all its outputs are, and windows without a common point
      are refused, except that the empty window ending at zero is not recognised as empty. */
  lemma {:induction false} CommonWindowExact(ws: seq<ValidityWindow>)
    ensures CommonWindow(ws).Some? ==>
              forall v: nat :: ValidFor(CommonWindow(ws).value, v) <==> ValidForAll(ws, v)
    ensures CommonWindow(ws).None?
            <==> (forall v: nat :: !ValidForAll(ws, v)) && !(LatestStart(ws).None? && EarliestEnd(ws) == Some(0))
  {
    var w := ValidityWindow(LatestStart(ws), EarliestEnd(ws));
    forall v: nat
      ensures ValidFor(w, v) <==> ValidForAll(ws, v)
    {
      WindowIsIntersection(ws, v);
    }
    if CommonWindow(ws).Some? && !(w.from.None? && w.to == Some(0)) {
      var v: nat := if w.from.Some? then w.from.value else 0;
      assert ValidFor(w, v);
      assert ValidForAll(ws, v);
    }
  }

  /** The exception exists: this window holds nothing and is not refused. */
  lemma {:induction false} EmptyWindowPasses()
    ensures var ws := [ValidityWindow(None, Some(0))];
            CommonWindow(ws) == Some(ws[0]) && forall v: nat :: !ValidForAll(ws, v)
  {
    var ws := [ValidityWindow(None, Some(0))];
    assert ws[1..] == [];
    forall v: nat
      ensures !ValidForAll(ws, v)
    {
      assert !ValidFor(ws[0], v);
    }
  }

  // ---- balances ----

  function Total(balances: seq<Balance>): nat
  {
    if balances == [] then 0 else Total(balances[..|balances| - 1]) + balances[|balances| - 1]
  }

  const TWO_256: nat := TWO_128 * TWO_128

  /** `lo + hi * 2^128`. */
  datatype WrappedBalanceSum = WrappedBalanceSum(lo: Balance, hi: Balance)

  lemma {:induction false} TotalMonotone(balances: seq<Balance>, n: nat)
    requires n <= |balances|
    ensures Total(balances[..n]) <= Total(balances)
    decreases |balances|
  {
    if n == |balances| {
      assert balances[..n] == balances;
    } else {
      assert balances[..|balances| - 1][..n] == balances[..n];
      TotalMonotone(balances[..|balances| - 1], n);
    }
  }

  /** The two-word sum is exact, and is refused exactly when the total needs a third word. */
  method FromBalances(balances: seq<Balance>) returns (r: Option<WrappedBalanceSum>)
    ensures r.None? <==> Total(balances) >= TWO_256
    ensures r.Some? ==> r.value.lo + r.value.hi * TWO_128 == Total(balances)
  {
    var lo: nat, hi: nat := 0, 0;
    for i := 0 to |balances|
      invariant lo < TWO_128 && hi < TWO_128
      invariant lo + hi * TWO_128 == Total(balances[..i])
    {
      assert balances[..i + 1][..i] == balances[..i];
      lo := lo + balances[i];
      if lo >= TWO_128 {
        if hi + 1 >= TWO_128 {
          TotalMonotone(balances, i + 1);
          return None;
        }
        lo, hi := lo - TWO_128, hi + 1;
      }
    }
    assert balances[..|balances|] == balances;
    r := Some(WrappedBalanceSum(lo, hi));
  }

  lemma {:induction false} WrappedSumsEqualIff(a: WrappedBalanceSum, b: WrappedBalanceSum)
    ensures a == b <==> a.lo + a.hi * TWO_128 == b.lo + b.hi * TWO_128
  {
  }

  // ---- well-behaved executions ----

  datatype ExecutionFault =
    | PreStateAccountIdsNotUnique
    | MismatchedLength(pre: nat, post: nat)
    | ModifiedNonce(account: AccountId)
    | ModifiedProgramOwner(account: AccountId)
    | UnauthorizedBalanceDecrease(account: AccountId)
    | UnauthorizedDataModification(account: AccountId)
    | NonDefaultAccountWithDefaultOwner(account: AccountId)
    | BalanceSumOverflow
    | MismatchedTotalBalance

  function IdsOf(pres: seq<AccountWithMetadata>): (r: seq<AccountId>)
    ensures |r| == |pres|
    ensures forall i :: 0 <= i < |pres| ==> r[i] == pres[i].accountId
  {
    seq(|pres|, i requires 0 <= i < |pres| => pres[i].accountId)
  }

  function PreBalances(pres: seq<AccountWithMetadata>): (r: seq<Balance>)
    ensures |r| == |pres|
    ensures forall i :: 0 <= i < |pres| ==> r[i] == pres[i].account.balance
  {
    seq(|pres|, i requires 0 <= i < |pres| => pres[i].account.balance)
  }

  function PostBalances(posts: seq<AccountPostState>): (r: seq<Balance>)
    ensures |r| == |posts|
    ensures forall i :: 0 <= i < |posts| ==> r[i] == posts[i].account.balance
  {
    seq(|posts|, i requires 0 <= i < |posts| => posts[i].account.balance)
  }

  /** Rules 3 to 7, for one account. */
  function AccountFault(pre: AccountWithMetadata, post: AccountPostState, program: ProgramId): Option<ExecutionFault>
  {
    var a, b := pre.account, post.account;
    if a.nonce != b.nonce then Some(ModifiedNonce(pre.accountId))
    else if a.programOwner != b.programOwner then Some(ModifiedProgramOwner(pre.accountId))
    else if b.balance < a.balance && a.programOwner != program then Some(UnauthorizedBalanceDecrease(pre.accountId))
    else if a.data != b.data && a != DEFAULT_ACCOUNT && a.programOwner != program then
      Some(UnauthorizedDataModification(pre.accountId))
    else if b.programOwner == DEFAULT_PROGRAM_OWNER && a != DEFAULT_ACCOUNT then
      Some(NonDefaultAccountWithDefaultOwner(pre.accountId))
    else None
  }

  /** What `program` may do to one account: never touch nonce or owner, lower the balance or change the
      data only as the owner, except that anyone may fill the default account, and never find an
      account without an owner that is not the default account. */
  ghost predicate Behaves(a: Account, z: Account, program: ProgramId)
  {
    && z.nonce == a.nonce
    && z.programOwner == a.programOwner
    && (z.balance < a.balance ==> a.programOwner == program)
    && (z.data != a.data ==> a == DEFAULT_ACCOUNT || a.programOwner == program)
    && (a.programOwner == DEFAULT_PROGRAM_OWNER ==> a == DEFAULT_ACCOUNT)
  }

  /** No fault is found exactly in good behaviour, and a reported fault is the first rule broken, in
      the order nonce, owner, balance, data, default owner. */
  lemma {:induction false} AccountFaultExact(pre: AccountWithMetadata, post: AccountPostState, program: ProgramId)
    ensures var fault, a, z, id := AccountFault(pre, post, program), pre.account, post.account, pre.accountId;
            var nonce, owner, balance :=
              z.nonce == a.nonce, z.programOwner == a.programOwner, z.balance >= a.balance || a.programOwner == program;
            var data := z.data == a.data || a == DEFAULT_ACCOUNT || a.programOwner == program;
            && (fault.None? <==> Behaves(a, z, program))
            && (fault == Some(ModifiedNonce(id)) <==> !nonce)
            && (fault == Some(ModifiedProgramOwner(id)) <==> nonce && !owner)
            && (fault == Some(UnauthorizedBalanceDecrease(id)) <==> nonce && owner && !balance)
            && (fault == Some(UnauthorizedDataModification(id)) <==> nonce && owner && balance && !data)
            && (fault == Some(NonDefaultAccountWithDefaultOwner(id))
                <==> nonce && owner && balance && data && !Behaves(a, z, program))
  {
  }

  /** The first account, among the first `n`, that breaks a rule. */
  function FirstAccountFault(pres: seq<AccountWithMetadata>, posts: seq<AccountPostState>, program: ProgramId, n: nat)
    : (r: Option<ExecutionFault>)
    requires n <= |pres| == |posts|
    ensures r.None? <==> forall i :: 0 <= i < n ==> AccountFault(pres[i], posts[i], program).None?
    ensures r.Some? ==> exists i :: 0 <= i < n && r == AccountFault(pres[i], posts[i], program)
                                    && forall j :: 0 <= j < i ==> AccountFault(pres[j], posts[j], program).None?
  {
    if n == 0 then None
    else
      var before := FirstAccountFault(pres, posts, program, n - 1);
      if before.Some? then before else AccountFault(pres[n - 1], posts[n - 1], program)
  }

  ghost function ExecutionVerdict(
    pres: seq<AccountWithMetadata>, posts: seq<AccountPostState>, program: ProgramId): Option<ExecutionFault>
  {
    if !Distinct(IdsOf(pres)) then Some(PreStateAccountIdsNotUnique)
    else if |pres| != |posts| then Some(MismatchedLength(|pres|, |posts|))
    else if FirstAccountFault(pres, posts, program, |pres|).Some? then FirstAccountFault(pres, posts, program, |pres|)
    else if Total(PreBalances(pres)) >= TWO_256 || Total(PostBalances(posts)) >= TWO_256 then Some(BalanceSumOverflow)
    else if Total(PreBalances(pres)) != Total(PostBalances(posts)) then Some(MismatchedTotalBalance)
    else None
  }

  function IdSet(ids: seq<AccountId>): set<AccountId>
  {
    set id | id in ids
  }

  lemma {:induction false} IdSetSnoc(ids: seq<AccountId>)
    requires ids != []
    ensures IdSet(ids) == IdSet(ids[..|ids| - 1]) + {ids[|ids| - 1]}
  {
    assert ids == ids[..|ids| - 1] + [ids[|ids| - 1]];
  }

  lemma {:induction false} DistinctSnoc(ids: seq<AccountId>)
    requires ids != []
    ensures Distinct(ids) <==> Distinct(ids[..|ids| - 1]) && ids[|ids| - 1] !in IdSet(ids[..|ids| - 1])
  {
    var n := |ids| - 1;
    if ids[n] in IdSet(ids[..n]) {
      var i :| 0 <= i < n && ids[i] == ids[n];
    }
  }

  /** The ids are distinct exactly when collecting them into a set loses none. */
  lemma {:induction false} DistinctIffSetSize(ids: seq<AccountId>)
    ensures |IdSet(ids)| <= |ids|
    ensures Distinct(ids) <==> |IdSet(ids)| == |ids|
    decreases |ids|
  {
    hide Distinct;
    if ids == [] {
      DistinctEmpty();
    } else {
      IdSetSnoc(ids);
      DistinctSnoc(ids);
      DistinctIffSetSize(ids[..|ids| - 1]);
    }
  }

  lemma {:induction false} DistinctEmpty()
    ensures Distinct<AccountId>([])
  {
  }

  /** The execution is well behaved: no account is listed twice, every account has a post state, the
      program behaves on each, and the balances have the same total, which fits two words. */
  ghost predicate WellBehaved(pres: seq<AccountWithMetadata>, posts: seq<AccountPostState>, program: ProgramId)
  {
    && (forall i, j :: 0 <= i < j < |pres| ==> pres[i].accountId != pres[j].accountId)
    && |pres| == |posts|
    && (forall i :: 0 <= i < |pres| ==> Behaves(pres[i].account, posts[i].account, program))
    && Total(PreBalances(pres)) == Total(PostBalances(posts)) < TWO_128 * TWO_128
  }

  lemma {:induction false} WellBehavedIff(pres: seq<AccountWithMetadata>, posts: seq<AccountPostState>, program: ProgramId)
    ensures ExecutionVerdict(pres, posts, program).None? <==> WellBehaved(pres, posts, program)
  {
    assert Distinct(IdsOf(pres)) <==> forall i, j :: 0 <= i < j < |pres| ==> pres[i].accountId != pres[j].accountId by {
      forall i, j | 0 <= i < j < |pres|
        ensures IdsOf(pres)[i] == IdsOf(pres)[j] <==> pres[i].accountId == pres[j].accountId
      {
      }
    }
    hide Distinct, AccountFault, Behaves, Total;
    if |pres| == |posts| {
      forall i | 0 <= i < |pres|
        ensures AccountFault(pres[i], posts[i], program).None? <==> Behaves(pres[i].account, posts[i].account, program)
      {
        AccountFaultExact(pres[i], posts[i], program);
      }
    }
  }

  method ValidateExecution(pres: seq<AccountWithMetadata>, posts: seq<AccountPostState>, program: ProgramId)
    returns (fault: Option<ExecutionFault>)
    ensures fault == ExecutionVerdict(pres, posts, program)
    ensures fault.None? <==> WellBehaved(pres, posts, program)
  {
    WellBehavedIff(pres, posts, program);
    hide WellBehaved;
    DistinctIffSetSize(IdsOf(pres));
    if |IdSet(IdsOf(pres))| != |pres| {
      return Some(PreStateAccountIdsNotUnique);
    }
    if |pres| != |posts| {
      return Some(MismatchedLength(|pres|, |posts|));
    }
    for i := 0 to |pres|
      invariant FirstAccountFault(pres, posts, program, i).None?
    {
      fault := AccountFault(pres[i], posts[i], program);
      if fault.Some? {
        FaultPersists(pres, posts, program, i, |pres|);
        return;
      }
    }
    var pre := FromBalances(PreBalances(pres));
    if pre.None? {
      return Some(BalanceSumOverflow);
    }
    var post := FromBalances(PostBalances(posts));
    if post.None? {
      return Some(BalanceSumOverflow);
    }
    WrappedSumsEqualIff(pre.value, post.value);
    fault := if pre != post then Some(MismatchedTotalBalance) else None;
  }

  lemma {:induction false} FaultPersists(
    pres: seq<AccountWithMetadata>, posts: seq<AccountPostState>, program: ProgramId, i: nat, n: nat)
    requires i < n <= |pres| == |posts|
    requires FirstAccountFault(pres, posts, program, i).None? && AccountFault(pres[i], posts[i], program).Some?
    ensures FirstAccountFault(pres, posts, program, n) == AccountFault(pres[i], posts[i], program)
    decreases n
  {
    if n > i + 1 {
      FaultPersists(pres, posts, program, i, n - 1);
    }
  }
}
