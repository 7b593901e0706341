/** Deriving the execution state of a transaction from its program outputs
    (`ExecutionState::derive_from_outputs`), and what acceptance guarantees. */
module Derivation {
  import opened Prelude
  import opened LedgerState
  import opened Programs
  import opened Execution
  import opened ExecutionInvariants
  import opened CallTrees
  import opened Threading
  import opened Provenance
  import opened Bindings

  datatype Derived = Derived(exec: Exec, blockWindow: ValidityWindow, timestampWindow: ValidityWindow)

  function BlockWindows(outputs: seq<ProgramOutput>): seq<ValidityWindow>
  {
    seq(|outputs|, i requires 0 <= i < |outputs| => outputs[i].blockWindow)
  }

  function TimestampWindows(outputs: seq<ProgramOutput>): seq<ValidityWindow>
  {
    seq(|outputs|, i requires 0 <= i < |outputs| => outputs[i].timestampWindow)
  }

  /** The top-level call: nobody called it, nothing is handed down to it. */
  function RootFrame(program: ProgramId, first: ProgramOutput): Frame
  {
    Frame(ChainedCall(program, first.preStates, first.instructionData, []), CallerData(None, {}))
  }

  /** Every private PDA has a proven link between its keys and its account id. */
  predicate AllPdasBound(ids: seq<InputAccountIdentity>, s: Exec)
  {
    forall pos :: 0 <= pos < |ids| && IsPrivatePda(ids[pos]) ==> pos in s.boundPositions
  }

  /** An account found uninitialized and left modified has been claimed. */
  predicate ModifiedIsClaimed(s: Exec, i: nat)
    requires i < |s.preStates|
  {
    s.preStates[i].account.programOwner == DEFAULT_PROGRAM_OWNER ==>
      && s.preStates[i].accountId in s.postStates
      && (s.postStates[s.preStates[i].accountId] != s.preStates[i].account ==>
            s.postStates[s.preStates[i].accountId].programOwner != DEFAULT_PROGRAM_OWNER)
  }

  predicate AllModifiedClaimed(s: Exec)
  {
    forall i :: 0 <= i < |s.preStates| ==> ModifiedIsClaimed(s, i)
  }

  ghost function Derive(
    x: Crypto, ids: seq<InputAccountIdentity>, program: ProgramId, outputs: seq<ProgramOutput>): Option<Derived>
  {
    var blocks, stamps := CommonWindow(BlockWindows(outputs)), CommonWindow(TimestampWindows(outputs));
    if blocks.None? || stamps.None? || outputs == [] then None
    else
      match Work(x, ids, EMPTY_EXEC, [RootFrame(program, outputs[0])], outputs, 0)
      case None => None
      case Some(s) =>
        if AllPdasBound(ids, s) && AllModifiedClaimed(s) then Some(Derived(s, blocks.value, stamps.value)) else None
  }

  // ---- what acceptance guarantees ----

  /** The call tree of an accepted transaction, rooted at the top-level call. */
  ghost predicate IsCallTree(x: Crypto, program: ProgramId, outputs: seq<ProgramOutput>, f: Calls)
  {
    && outputs != [] && Preorder(f) == outputs
    && Matches(x, f, [RootFrame(program, outputs[0])])
  }

  /** An accepted output list is the preorder of exactly one call tree, of at most eleven calls. */
  lemma {:induction false} AcceptedHasOneTree(
    x: Crypto, ids: seq<InputAccountIdentity>, program: ProgramId, outputs: seq<ProgramOutput>)
    requires Derive(x, ids, program, outputs).Some?
    ensures |outputs| <= MAX_NUMBER_CHAINED_CALLS + 1
    ensures exists f :: IsCallTree(x, program, outputs, f)
    ensures forall f, g :: IsCallTree(x, program, outputs, f) && IsCallTree(x, program, outputs, g) ==> f == g
  {
    hide Work, Matches, Preorder;
    var root := [RootFrame(program, outputs[0])];
    var f := WorklistFindsTree(x, ids, EMPTY_EXEC, root, outputs, 0);
    assert IsCallTree(x, program, outputs, f);
    forall f, g | IsCallTree(x, program, outputs, f) && IsCallTree(x, program, outputs, g)
      ensures f == g
    {
      TreeIsUnique(x, f, g, root, [], []);
    }
  }

  /** In an accepted transaction every call inherits exactly what its ancestors presented as
      authorized, and it presents an account it reads as authorized if and only if the account is
      journaled as authorized and is no private PDA, or a seed given to this call or to an ancestor
      that reads the account derives it. */
  lemma {:induction false} AcceptedAuthority(
    x: Crypto, ids: seq<InputAccountIdentity>, program: ProgramId, outputs: seq<ProgramOutput>, f: Calls, v: Visit,
    id: AccountId)
    requires Derive(x, ids, program, outputs).Some? && IsCallTree(x, program, outputs, f)
    requires v in Visits(f, [RootFrame(program, outputs[0])], []) && Lists(v.self.output, id)
    ensures v.self.frame.caller.authorizedAccounts == AuthorizedByAll(v.ancestors)
    ensures id in AuthorizedIn(v.self.output.preStates)
            <==> Justified(x, ids, Derive(x, ids, program, outputs).value.exec.preStates, v.ancestors + [v.self], id)
  {
    var root := [RootFrame(program, outputs[0])];
    NothingHandedDown(x, ids, Derive(x, ids, program, outputs).value.exec.preStates, program, outputs[0]);
    hide Work, Matches, Execute, Visits, Justified, HandedDown, AllKnow, Inherits, Lists, AuthorizedIn;
    var s := Derive(x, ids, program, outputs).value.exec;
    AcceptedHasOneTree(x, ids, program, outputs);
    var g := WorklistFindsTree(x, ids, EMPTY_EXEC, root, outputs, 0);
    assert IsCallTree(x, program, outputs, g);
    EmptyInvariant(x, ids);
    InheritedIsFromAncestors(f, root, [], v);
    ExecuteGrows(x, ids, EMPTY_EXEC, f, root);
    DistinctWhenInvariant(x, ids, s);
    AuthorizationProvenance(x, ids, EMPTY_EXEC, f, root, [], s.preStates, v, id);
  }

  lemma {:induction false} NothingHandedDown(
    x: Crypto, ids: seq<InputAccountIdentity>, journal: seq<AccountWithMetadata>, program: ProgramId, first: ProgramOutput)
    ensures HandedDown(x, ids, journal, []) && Inherits([RootFrame(program, first)], [])
    ensures AllKnow(EMPTY_EXEC.preStates, [RootFrame(program, first)])
  {
  }

  /** The account state each exit pair starts from and ends in. */
  datatype ExitPair = ExitPair(pre: AccountWithMetadata, post: Account)

  /** The exit pairs. The lookup cannot fail on a threaded state. */
  function ExitPairs(s: Exec): (r: seq<ExitPair>)
    requires forall i :: 0 <= i < |s.preStates| ==> s.preStates[i].accountId in s.postStates
    ensures |r| == |s.preStates|
    ensures forall i :: 0 <= i < |r| ==> r[i] == ExitPair(s.preStates[i], s.postStates[s.preStates[i].accountId])
  {
    seq(|s.preStates|, i requires 0 <= i < |s.preStates| => ExitPair(s.preStates[i], s.postStates[s.preStates[i].accountId]))
  }

  /** Accounts thread through an accepted transaction: each call finds every account as the previous
      one left it, and the exit pairs are, in order of first touch, each account as first found and
      as last left. Together the accounts hold in the end what they held at first. */
  lemma {:induction false} AcceptedThreading(
    x: Crypto, ids: seq<InputAccountIdentity>, program: ProgramId, outputs: seq<ProgramOutput>)
    requires Derive(x, ids, program, outputs).Some?
    ensures var s := Derive(x, ids, program, outputs).value.exec;
            var ts := Touches(outputs);
            && Distinct(IdsOf(s.preStates))
            && (forall i :: 0 <= i < |s.preStates| ==> s.preStates[i].accountId in s.postStates)
            && Consistent(ts) && EntriesOf(s.preStates) == FirstPres(ts) && s.postStates == LastPosts(ts)
            && Total(CurrentBalances(s.preStates, s.postStates)) == Total(PreBalances(s.preStates))
  {
    EmptyAccounted(x, ids);
    WorkAccounts(x, ids, EMPTY_EXEC, [RootFrame(program, outputs[0])], outputs, 0, []);
    assert [] + outputs == outputs;
    JournaledAreKnown(Derive(x, ids, program, outputs).value.exec);
  }

  /** The PDA bindings of an accepted transaction: every private PDA is bound, a bound position's
      program and seed re-derive its account id from its supplied keys, and no two positions share
      a binding. */
  lemma {:induction false} AcceptedBindings(
    x: Crypto, ids: seq<InputAccountIdentity>, program: ProgramId, outputs: seq<ProgramOutput>)
    requires Derive(x, ids, program, outputs).Some?
    ensures var s := Derive(x, ids, program, outputs).value.exec;
            && (forall pos :: 0 <= pos < |ids| && IsPrivatePda(ids[pos]) ==> pos in s.boundPositions)
            && (forall pos :: pos in s.boundPositions ==>
                  && pos < |s.preStates| && pos < |ids| && IsPrivatePda(ids[pos])
                  && x.privatePda(s.boundPositions[pos], WitnessKeys(x, ids[pos].evidence)) == s.preStates[pos].accountId)
            && (forall p, q :: p in s.boundPositions && q in s.boundPositions && s.boundPositions[p] == s.boundPositions[q] ==> p == q)
  {
    EmptyInvariant(x, ids);
    var s := Derive(x, ids, program, outputs).value.exec;
    WorkGrows(x, ids, EMPTY_EXEC, [RootFrame(program, outputs[0])], outputs, 0);
    hide Work;
    forall pos | pos in s.boundPositions
      ensures pos < |s.preStates| && pos < |ids| && IsPrivatePda(ids[pos])
      ensures x.privatePda(s.boundPositions[pos], WitnessKeys(x, ids[pos].evidence)) == s.preStates[pos].accountId
    {
      assert PositionBound(x, ids, s, pos, s.boundPositions[pos]);
    }
    forall p, q | p in s.boundPositions && q in s.boundPositions && s.boundPositions[p] == s.boundPositions[q]
      ensures p == q
    {
      BoundPositionsInjective(x, ids, s, p, q);
    }
  }
}
