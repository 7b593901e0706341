/** Exactly which transactions the circuit accepts, said of the call tree alone: which accounts its calls
    handle, in which order, and what the calls before them did. No execution state is involved. */
module Acceptance {
  import opened Prelude
  import opened LedgerState
  import opened Programs
  import opened Execution
  import opened ExecutionInvariants
  import opened CallTrees
  import opened Derivation
  import opened CircuitOutputs
  import opened Admission

  // ---- what a history of handled accounts amounts to ----

  /** Each account once, in order of first sight, as it was found. */
  function JournalOf(x: Crypto, ids: seq<InputAccountIdentity>, hs: seq<Handling>): seq<AccountWithMetadata>
  {
    if hs == [] then []
    else
      var before, h := JournalOf(x, ids, hs[..|hs| - 1]), hs[|hs| - 1];
      if PositionIn(before, h.pre.accountId).Some? then before else before + [EntryFor(x, ids, |before|, h)]
  }

  /** Each account as it was last left. */
  function LeftAs(hs: seq<Handling>): map<AccountId, Account>
  {
    if hs == [] then map[]
    else
      var h := hs[|hs| - 1];
      LeftAs(hs[..|hs| - 1])[h.pre.accountId := Settled(h.program, h.post)]
  }

  /** Account `j` of the history had been seen before. */
  predicate KnownAt(hs: seq<Handling>, j: nat)
    requires j < |hs|
  {
    hs[j].pre.accountId in LeftAs(hs[..j])
  }

  /** Its place in the journal. */
  function PlaceAt(x: Crypto, ids: seq<InputAccountIdentity>, hs: seq<Handling>, j: nat): nat
    requires j < |hs|
  {
    PlaceOf(JournalOf(x, ids, hs[..j]), hs[j].pre.accountId)
  }

  /** The bindings that handling it resolved to it. */
  function ResolvedAt(x: Crypto, ids: seq<InputAccountIdentity>, hs: seq<Handling>, j: nat): set<Binding>
    requires j < |hs|
  {
    ResolvedBy(x, ids, PlaceAt(x, ids, hs, j), KnownAt(hs, j), hs[j])
  }

  /** The bindings that handling it gave its place. */
  function PlacedAt(x: Crypto, ids: seq<InputAccountIdentity>, hs: seq<Handling>, j: nat): set<Binding>
    requires j < |hs|
  {
    PlacedBy(x, ids, PlaceAt(x, ids, hs, j), KnownAt(hs, j), hs[j])
  }

  /** Handlings `j` and `k` resolve no binding to different accounts, and give one place no different bindings. */
  ghost predicate Agree(x: Crypto, ids: seq<InputAccountIdentity>, hs: seq<Handling>, j: nat, k: nat)
    requires j < |hs| && k < |hs|
  {
    && (forall b :: b in ResolvedAt(x, ids, hs, j) && b in ResolvedAt(x, ids, hs, k) ==> hs[j].pre.accountId == hs[k].pre.accountId)
    && (PlaceAt(x, ids, hs, j) == PlaceAt(x, ids, hs, k) ==>
          forall b, c :: b in PlacedAt(x, ids, hs, j) && c in PlacedAt(x, ids, hs, k) ==> b == c)
  }

  /** Handling `k` is in order: the account is found as last left, it is presented as authorized as it
      must be, a binding its witness names derives it, a claim on it is allowed, and its bindings agree
      with all before. */
  ghost predicate InOrder(x: Crypto, ids: seq<InputAccountIdentity>, hs: seq<Handling>, k: nat)
    requires k < |hs|
  {
    var h, past, pos := hs[k], hs[..k], PlaceAt(x, ids, hs, k);
    var id := h.pre.accountId;
    && (id in LeftAs(past) ==> h.pre.account == LeftAs(past)[id])
    && (id !in LeftAs(past) ==> NamedDerives(x, ids, pos, id))
    && AuthorityRight(x, ids, FreelyAuthorized(x, ids, JournalOf(x, ids, past), id), pos, KnownAt(hs, k), h)
    && ClaimAllowed(x, ids, pos, h)
    && forall j :: 0 <= j <= k ==> Agree(x, ids, hs, j, k)
  }

  // ---- the execution state is such a history ----

  /** Handling accounts one after another. */
  function Handle(x: Crypto, ids: seq<InputAccountIdentity>, s: Exec, hs: seq<Handling>): Option<Exec>
  {
    if hs == [] then Some(s)
    else
      match Handle(x, ids, s, hs[..|hs| - 1])
      case None => None
      case Some(t) =>
        var h := hs[|hs| - 1];
        SyncOne(x, ids, t, h.program, h.caller, h.seeds, h.pre, h.post)
  }

  /** The bindings on record are exactly those the history gave. */
  ghost predicate RecordsBindings(x: Crypto, ids: seq<InputAccountIdentity>, s: Exec, hs: seq<Handling>)
  {
    && (forall b :: b in s.family ==> exists j :: 0 <= j < |hs| && b in ResolvedAt(x, ids, hs, j))
    && (forall j, b :: 0 <= j < |hs| && b in ResolvedAt(x, ids, hs, j) ==> b in s.family && s.family[b] == hs[j].pre.accountId)
    && (forall p :: p in s.boundPositions ==>
          exists j :: 0 <= j < |hs| && PlaceAt(x, ids, hs, j) == p && s.boundPositions[p] in PlacedAt(x, ids, hs, j))
    && (forall j, b :: 0 <= j < |hs| && b in PlacedAt(x, ids, hs, j) ==>
          PlaceAt(x, ids, hs, j) in s.boundPositions && s.boundPositions[PlaceAt(x, ids, hs, j)] == b)
  }

  /** The state is that of the history. */
  ghost predicate Summarizes(x: Crypto, ids: seq<InputAccountIdentity>, s: Exec, hs: seq<Handling>)
  {
    && s.preStates == JournalOf(x, ids, hs) && s.postStates == LeftAs(hs)
    && GlobalsJournaled(x, ids, s)
    && RecordsBindings(x, ids, s, hs)
  }

  lemma {:induction false} KnownIffPlaced(x: Crypto, ids: seq<InputAccountIdentity>, hs: seq<Handling>, id: AccountId)
    ensures id in LeftAs(hs) <==> PositionIn(JournalOf(x, ids, hs), id).Some?
    decreases |hs|
  {
    if hs != [] {
      var before, h := JournalOf(x, ids, hs[..|hs| - 1]), hs[|hs| - 1];
      KnownIffPlaced(x, ids, hs[..|hs| - 1], id);
      if PositionIn(before, h.pre.accountId).None? {
        FoundInSnoc(before, EntryFor(x, ids, |before|, h), id);
      }
    }
  }

  lemma {:induction false} FoundInSnoc(pres: seq<AccountWithMetadata>, e: AccountWithMetadata, id: AccountId)
    ensures PositionIn(pres + [e], id).Some? <==> PositionIn(pres, id).Some? || e.accountId == id
  {
    var all := pres + [e];
    var r, p := PositionIn(all, id), PositionIn(pres, id);
    if p.Some? {
      assert all[p.value].accountId == id;
    }
    if e.accountId == id {
      assert all[|pres|].accountId == id;
    }
    if r.Some? && r.value < |pres| {
      assert pres[r.value].accountId == id;
    }
  }

  /** The past does not change. */
  lemma {:induction false} PastIsFixed(x: Crypto, ids: seq<InputAccountIdentity>, hs: seq<Handling>, more: seq<Handling>, j: nat)
    requires j < |hs| && hs <= more
    ensures PlaceAt(x, ids, more, j) == PlaceAt(x, ids, hs, j) && KnownAt(more, j) == KnownAt(hs, j)
    ensures ResolvedAt(x, ids, more, j) == ResolvedAt(x, ids, hs, j) && PlacedAt(x, ids, more, j) == PlacedAt(x, ids, hs, j)
  {
    assert more[..j] == hs[..j] && more[j] == hs[j];
  }

  /** The next handling, seen from the state and from the history. */
  lemma {:induction false} NextHandling(x: Crypto, ids: seq<InputAccountIdentity>, s: Exec, hs: seq<Handling>, h: Handling)
    requires s.preStates == JournalOf(x, ids, hs) && s.postStates == LeftAs(hs)
    ensures var all, k := hs + [h], |hs|;
            var known, pos := h.pre.accountId in s.postStates, PlaceOf(s.preStates, h.pre.accountId);
            && all[..k] == hs && all[k] == h && PlaceAt(x, ids, all, k) == pos && KnownAt(all, k) == known
            && ResolvedAt(x, ids, all, k) == ResolvedBy(x, ids, pos, known, h)
            && PlacedAt(x, ids, all, k) == PlacedBy(x, ids, pos, known, h)
            && (known <==> PositionIn(s.preStates, h.pre.accountId).Some?)
  {
    hide ResolvedBy, PlacedBy;
    assert (hs + [h])[..|hs|] == hs;
    KnownIffPlaced(x, ids, hs, h.pre.accountId);
  }

  lemma {:induction false} SummaryGives(
    x: Crypto, ids: seq<InputAccountIdentity>, s: Exec, hs: seq<Handling>, h: Handling, j: nat, b: Binding)
    requires RecordsBindings(x, ids, s, hs) && j < |hs|
    ensures var all := hs + [h];
            && all[j] == hs[j]
            && (b in ResolvedAt(x, ids, all, j) ==> b in s.family && s.family[b] == hs[j].pre.accountId)
            && (b in PlacedAt(x, ids, all, j) ==>
                  PlaceAt(x, ids, all, j) in s.boundPositions && s.boundPositions[PlaceAt(x, ids, all, j)] == b)
  {
    hide ResolvedAt, PlacedAt, PlaceAt;
    PastIsFixed(x, ids, hs, hs + [h], j);
  }

  lemma {:induction false} AgreeingIsCompatible(x: Crypto, ids: seq<InputAccountIdentity>, s: Exec, hs: seq<Handling>, h: Handling)
    requires RecordsBindings(x, ids, s, hs)
    requires forall j :: 0 <= j <= |hs| ==> Agree(x, ids, hs + [h], j, |hs|)
    ensures var all, k := hs + [h], |hs|;
            Compatible(s, h.pre.accountId, PlaceAt(x, ids, all, k), ResolvedAt(x, ids, all, k), PlacedAt(x, ids, all, k))
  {
    var all, k := hs + [h], |hs|;
    var id, pos, fam, at := h.pre.accountId, PlaceAt(x, ids, all, k), ResolvedAt(x, ids, all, k), PlacedAt(x, ids, all, k);
    hide ResolvedAt, PlacedAt, PlaceAt;
    assert Agree(x, ids, all, k, k);
    forall b | b in fam && b in s.family
      ensures s.family[b] == id
    {
      var j :| 0 <= j < |hs| && b in ResolvedAt(x, ids, hs, j);
      PastIsFixed(x, ids, hs, all, j);
      assert Agree(x, ids, all, j, k);
    }
    forall b | b in at && pos in s.boundPositions
      ensures s.boundPositions[pos] == b
    {
      var j :| 0 <= j < |hs| && PlaceAt(x, ids, hs, j) == pos && s.boundPositions[pos] in PlacedAt(x, ids, hs, j);
      PastIsFixed(x, ids, hs, all, j);
      assert Agree(x, ids, all, j, k);
    }
  }

  lemma {:induction false} CompatibleAgrees(x: Crypto, ids: seq<InputAccountIdentity>, s: Exec, hs: seq<Handling>, h: Handling, j: nat)
    requires RecordsBindings(x, ids, s, hs) && j <= |hs|
    requires var all, k := hs + [h], |hs|;
             Compatible(s, h.pre.accountId, PlaceAt(x, ids, all, k), ResolvedAt(x, ids, all, k), PlacedAt(x, ids, all, k))
    ensures Agree(x, ids, hs + [h], j, |hs|)
  {
    var all, k := hs + [h], |hs|;
    hide ResolvedAt, PlacedAt, PlaceAt, RecordsBindings;
    if j < k {
      forall b
        ensures b in ResolvedAt(x, ids, all, j) ==> b in s.family && s.family[b] == all[j].pre.accountId
        ensures b in PlacedAt(x, ids, all, j) ==>
                  PlaceAt(x, ids, all, j) in s.boundPositions && s.boundPositions[PlaceAt(x, ids, all, j)] == b
      {
        SummaryGives(x, ids, s, hs, h, j, b);
      }
    }
  }

  /** Its bindings contradict nothing on record exactly if they agree with all before and with each other. */
  lemma {:induction false} CompatibleIffAgree(x: Crypto, ids: seq<InputAccountIdentity>, s: Exec, hs: seq<Handling>, h: Handling)
    requires RecordsBindings(x, ids, s, hs)
    ensures var all, k := hs + [h], |hs|;
            Compatible(s, h.pre.accountId, PlaceAt(x, ids, all, k), ResolvedAt(x, ids, all, k), PlacedAt(x, ids, all, k))
            <==> forall j :: 0 <= j <= k ==> Agree(x, ids, all, j, k)
  {
    var all, k := hs + [h], |hs|;
    hide Compatible, Agree, ResolvedAt, PlacedAt, PlaceAt, RecordsBindings;
    if Compatible(s, h.pre.accountId, PlaceAt(x, ids, all, k), ResolvedAt(x, ids, all, k), PlacedAt(x, ids, all, k)) {
      forall j | 0 <= j <= k
        ensures Agree(x, ids, all, j, k)
      {
        CompatibleAgrees(x, ids, s, hs, h, j);
      }
    } else if forall j :: 0 <= j <= k ==> Agree(x, ids, all, j, k) {
      AgreeingIsCompatible(x, ids, s, hs, h);
    }
  }

  /** A handling is allowed in the state of a history exactly if it is in order after it. */
  lemma {:induction false} AllowedIffInOrder(x: Crypto, ids: seq<InputAccountIdentity>, s: Exec, hs: seq<Handling>, h: Handling)
    requires Summarizes(x, ids, s, hs)
    ensures Allowed(x, ids, s, h) <==> InOrder(x, ids, hs + [h], |hs|)
  {
    NextHandling(x, ids, s, hs, h);
    CompatibleIffAgree(x, ids, s, hs, h);
    hide Compatible, RecordsBindings, JournalOf, LeftAs, PlaceOf, PlaceAt, ResolvedAt, PlacedAt, ResolvedBy, PlacedBy;
    hide NamedDerives, AuthorityRight, ClaimAllowed, FreelyAuthorized, Agree;
  }

  /** The journal and standing authorizations after another handling. */
  lemma {:induction false} SummaryJournals(
    x: Crypto, ids: seq<InputAccountIdentity>, s: Exec, t: Exec, hs: seq<Handling>, h: Handling)
    requires s.preStates == JournalOf(x, ids, hs) && s.postStates == LeftAs(hs) && GlobalsJournaled(x, ids, s)
    requires Handled(x, ids, s, t, h)
    ensures t.preStates == JournalOf(x, ids, hs + [h]) && t.postStates == LeftAs(hs + [h]) && GlobalsJournaled(x, ids, t)
  {
    NextHandling(x, ids, s, hs, h);
    hide Adds, ResolvedBy, PlacedBy, EntryFor, FreelyAuthorized;
    if h.pre.accountId !in s.postStates {
      var e := EntryFor(x, ids, |s.preStates|, h);
      EntryKeepsId(x, ids, |s.preStates|, h);
      forall id
        ensures id in t.globallyAuthorized <==> FreelyAuthorized(x, ids, t.preStates, id)
      {
        FreelySnoc(x, ids, s.preStates, e, id);
      }
    }
  }

  lemma {:induction false} EntryKeepsId(x: Crypto, ids: seq<InputAccountIdentity>, pos: nat, h: Handling)
    ensures EntryFor(x, ids, pos, h).accountId == h.pre.accountId
  {
  }

  /** The bindings on record after another handling. */
  lemma {:induction false} SummaryBinds(
    x: Crypto, ids: seq<InputAccountIdentity>, s: Exec, t: Exec, hs: seq<Handling>, h: Handling)
    requires RecordsBindings(x, ids, s, hs)
    requires var all, k := hs + [h], |hs|;
             var id, pos, fam, at := h.pre.accountId, PlaceAt(x, ids, all, k), ResolvedAt(x, ids, all, k), PlacedAt(x, ids, all, k);
             Compatible(s, id, pos, fam, at) && Adds(s, t, id, pos, fam, at)
    ensures RecordsBindings(x, ids, t, hs + [h])
  {
    var all, k := hs + [h], |hs|;
    hide ResolvedAt, PlacedAt, PlaceAt;
    assert all[k] == h;
    forall b | b in t.family
      ensures exists j :: 0 <= j < |all| && b in ResolvedAt(x, ids, all, j)
    {
      if b in s.family {
        var j :| 0 <= j < |hs| && b in ResolvedAt(x, ids, hs, j);
        PastIsFixed(x, ids, hs, all, j);
      } else {
        assert b in ResolvedAt(x, ids, all, k);
      }
    }
    forall p | p in t.boundPositions
      ensures exists j :: 0 <= j < |all| && PlaceAt(x, ids, all, j) == p && t.boundPositions[p] in PlacedAt(x, ids, all, j)
    {
      if p == PlaceAt(x, ids, all, k) && PlacedAt(x, ids, all, k) != {} {
        assert t.boundPositions[p] in PlacedAt(x, ids, all, k);
      } else {
        var j :| 0 <= j < |hs| && PlaceAt(x, ids, hs, j) == p && s.boundPositions[p] in PlacedAt(x, ids, hs, j);
        PastIsFixed(x, ids, hs, all, j);
      }
    }
    forall j, b | 0 <= j < |all| && b in ResolvedAt(x, ids, all, j)
      ensures b in t.family && t.family[b] == all[j].pre.accountId
    {
      if j < k {
        SummaryGives(x, ids, s, hs, h, j, b);
      }
    }
    forall j, b | 0 <= j < |all| && b in PlacedAt(x, ids, all, j)
      ensures PlaceAt(x, ids, all, j) in t.boundPositions && t.boundPositions[PlaceAt(x, ids, all, j)] == b
    {
      if j < k {
        SummaryGives(x, ids, s, hs, h, j, b);
      }
    }
  }

  lemma {:induction false} SummaryStep(
    x: Crypto, ids: seq<InputAccountIdentity>, s: Exec, t: Exec, hs: seq<Handling>, h: Handling)
    requires Summarizes(x, ids, s, hs) && Allowed(x, ids, s, h) && Handled(x, ids, s, t, h)
    ensures Summarizes(x, ids, t, hs + [h])
  {
    NextHandling(x, ids, s, hs, h);
    SummaryJournals(x, ids, s, t, hs, h);
    hide Compatible, Adds, RecordsBindings, JournalOf, LeftAs, PlaceOf, PlaceAt, ResolvedAt, PlacedAt, ResolvedBy, PlacedBy, GlobalsJournaled;
    hide NamedDerives, AuthorityRight, ClaimAllowed, Journaled;
    SummaryBinds(x, ids, s, t, hs, h);
  }

  /** A history runs through exactly if every handling in it is in order, and then the state is that of
      the history. */
  lemma {:induction false} HistoryRunsIff(x: Crypto, ids: seq<InputAccountIdentity>, hs: seq<Handling>)
    ensures Handle(x, ids, EMPTY_EXEC, hs).Some? <==> forall k :: 0 <= k < |hs| ==> InOrder(x, ids, hs, k)
    ensures Handle(x, ids, EMPTY_EXEC, hs).Some? ==> Summarizes(x, ids, Handle(x, ids, EMPTY_EXEC, hs).value, hs)
    decreases |hs|
  {
    if hs == [] {
      NothingHandled(x, ids);
    } else {
      var init, h := hs[..|hs| - 1], hs[|hs| - 1];
      assert hs == init + [h];
      hide SyncOne, Summarizes, InOrder;
      HistoryRunsIff(x, ids, init);
      forall k | 0 <= k < |init|
        ensures InOrder(x, ids, hs, k) <==> InOrder(x, ids, init, k)
      {
        OrderIsPast(x, ids, init, hs, k);
      }
      if Handle(x, ids, EMPTY_EXEC, init).Some? {
        var s := Handle(x, ids, EMPTY_EXEC, init).value;
        HistoryStep(x, ids, s, init, h);
      }
    }
  }

  lemma {:induction false} NothingHandled(x: Crypto, ids: seq<InputAccountIdentity>)
    ensures Summarizes(x, ids, EMPTY_EXEC, [])
  {
  }

  lemma {:induction false} OrderIsPast(x: Crypto, ids: seq<InputAccountIdentity>, hs: seq<Handling>, more: seq<Handling>, k: nat)
    requires k < |hs| && hs <= more
    ensures InOrder(x, ids, more, k) <==> InOrder(x, ids, hs, k)
  {
    hide ResolvedAt, PlacedAt, PlaceAt, KnownAt, JournalOf, LeftAs, NamedDerives, AuthorityRight, ClaimAllowed, FreelyAuthorized;
    assert more[..k] == hs[..k] && more[k] == hs[k];
    PastIsFixed(x, ids, hs, more, k);
    forall j | 0 <= j <= k
      ensures Agree(x, ids, more, j, k) <==> Agree(x, ids, hs, j, k)
    {
      PastIsFixed(x, ids, hs, more, j);
    }
  }

  lemma {:induction false} HistoryStep(x: Crypto, ids: seq<InputAccountIdentity>, s: Exec, hs: seq<Handling>, h: Handling)
    requires Summarizes(x, ids, s, hs)
    ensures var r := SyncOne(x, ids, s, h.program, h.caller, h.seeds, h.pre, h.post);
            && (r.Some? <==> InOrder(x, ids, hs + [h], |hs|))
            && (r.Some? ==> Summarizes(x, ids, r.value, hs + [h]))
  {
    NextHandling(x, ids, s, hs, h);
    hide SyncOne, InOrder, Allowed, Handled, RecordsBindings, JournalOf, LeftAs, PlaceOf, PlaceAt, ResolvedAt, PlacedAt, GlobalsJournaled;
    HandleIff(x, ids, s, h);
    AllowedIffInOrder(x, ids, s, hs, h);
    var r := SyncOne(x, ids, s, h.program, h.caller, h.seeds, h.pre, h.post);
    if r.Some? {
      SummaryStep(x, ids, s, r.value, hs, h);
    }
  }

  // ---- the call tree as a history ----

  /** The accounts a call handles, in order. */
  function HandlingsUpTo(e: Executed, n: nat): (r: seq<Handling>)
    requires n <= |e.output.preStates| && n <= |e.output.postStates|
    ensures |r| == n
  {
    seq(n, i requires 0 <= i < n =>
      Handling(e.frame.call.programId, e.frame.caller, e.frame.call.pdaSeeds, e.output.preStates[i], e.output.postStates[i]))
  }

  function HandlingsOf(e: Executed): seq<Handling>
  {
    HandlingsUpTo(e, Min(|e.output.preStates|, |e.output.postStates|))
  }

  function AllHandlings(calls: seq<Executed>): seq<Handling>
  {
    if calls == [] then [] else HandlingsOf(calls[0]) + AllHandlings(calls[1..])
  }

  /** Everything the calls of a tree handle, in the order of the tree. */
  function TreeHandlings(f: Calls, root: Frame): seq<Handling>
  {
    AllHandlings(Selves(Visits(f, [root], [])))
  }

  lemma {:induction false} HandleConcat(x: Crypto, ids: seq<InputAccountIdentity>, s: Exec, hs: seq<Handling>, more: seq<Handling>)
    ensures Handle(x, ids, s, hs + more)
            == match Handle(x, ids, s, hs) case None => None case Some(t) => Handle(x, ids, t, more)
    decreases |more|
  {
    hide SyncOne;
    if more == [] {
      assert hs + more == hs;
    } else {
      HandleConcat(x, ids, s, hs, more[..|more| - 1]);
      assert (hs + more)[..|hs + more| - 1] == hs + more[..|more| - 1];
    }
  }

  lemma {:induction false} SyncIsHandle(x: Crypto, ids: seq<InputAccountIdentity>, s: Exec, e: Executed, n: nat)
    requires n <= |e.output.preStates| && n <= |e.output.postStates|
    ensures SyncUpTo(x, ids, s, e.frame.call.programId, e.frame.caller, e.frame.call.pdaSeeds, e.output.preStates, e.output.postStates, n)
            == Handle(x, ids, s, HandlingsUpTo(e, n))
  {
    hide SyncOne;
    if n > 0 {
      SyncIsHandle(x, ids, s, e, n - 1);
      assert HandlingsUpTo(e, n)[..n - 1] == HandlingsUpTo(e, n - 1);
    }
  }

  lemma {:induction false} AllHandlingsConcat(calls: seq<Executed>, more: seq<Executed>)
    ensures AllHandlings(calls + more) == AllHandlings(calls) + AllHandlings(more)
    decreases |calls|
  {
    hide HandlingsOf;
    if calls == [] {
      assert calls + more == more;
    } else {
      AllHandlingsConcat(calls[1..], more);
      assert (calls + more)[1..] == calls[1..] + more;
    }
  }

  lemma {:induction false} AllHandlingsOne(e: Executed)
    ensures AllHandlings([e]) == HandlingsOf(e)
  {
    hide HandlingsOf;
    assert [e][1..] == [];
  }

  lemma {:induction false} ProcessIsHandle(x: Crypto, ids: seq<InputAccountIdentity>, s: Exec, frame: Frame, out: ProgramOutput)
    requires Accepts(x, frame, out)
    ensures Process(x, ids, s, frame, out) == Handle(x, ids, s, HandlingsOf(Executed(frame, out)))
  {
    hide SyncUpTo, Handle;
    SyncIsHandle(x, ids, s, Executed(frame, out), |out.preStates|);
  }

  lemma {:induction false} HandlingsOfCall(f: Calls, frames: seq<Frame>, a: seq<Executed>)
    requires f.Call? && frames != []
    ensures var self, kids := Executed(frames[0], f.output), ChildFrames(frames[0], f.output);
            AllHandlings(Selves(Visits(f, frames, a)))
            == HandlingsOf(self) + AllHandlings(Selves(Visits(f.made, kids, a + [self]))) + AllHandlings(Selves(Visits(f.next, frames[1..], a)))
  {
    hide HandlingsOf, Selves, Visits, AllHandlings;
    var self, kids := Executed(frames[0], f.output), ChildFrames(frames[0], f.output);
    SelvesOfVisits(f, frames, a);
    var made, next := Selves(Visits(f.made, kids, a + [self])), Selves(Visits(f.next, frames[1..], a));
    AllHandlingsConcat([self] + made, next);
    AllHandlingsConcat([self], made);
    AllHandlingsOne(self);
  }

  /** Executing a tree recursively is handling its accounts one after another. */
  lemma {:induction false} ExecuteIsHandle(
    x: Crypto, ids: seq<InputAccountIdentity>, s: Exec, f: Calls, frames: seq<Frame>, a: seq<Executed>)
    requires Matches(x, f, frames)
    ensures Execute(x, ids, s, f, frames) == Handle(x, ids, s, AllHandlings(Selves(Visits(f, frames, a))))
    decreases f
  {
    match f
    case NoCalls => assert Selves(Visits(f, frames, a)) == [];
    case Call(out, made, next) =>
      hide Accepts, Process, HandlingsOf, AllHandlings, Selves, Visits, ChildFrames, Handle;
      var self, kids := Executed(frames[0], out), ChildFrames(frames[0], out);
      var own, theirs, rest :=
        HandlingsOf(self), AllHandlings(Selves(Visits(made, kids, a + [self]))), AllHandlings(Selves(Visits(next, frames[1..], a)));
      HandlingsOfCall(f, frames, a);
      ProcessIsHandle(x, ids, s, frames[0], out);
      HandleConcat(x, ids, s, own + theirs, rest);
      HandleConcat(x, ids, s, own, theirs);
      match Process(x, ids, s, frames[0], out)
      case None =>
      case Some(t) =>
        ExecuteIsHandle(x, ids, t, made, kids, a + [self]);
        match Execute(x, ids, t, made, kids)
        case None =>
        case Some(u) => ExecuteIsHandle(x, ids, u, next, frames[1..], a);
  }

  // ---- acceptance ----

  /** Every account the tree handles is handled in order; in the end every private program-derived
      account has a binding, and no account without an owner has been changed without being claimed. */
  ghost predicate Coherent(x: Crypto, ids: seq<InputAccountIdentity>, hs: seq<Handling>)
  {
    && (forall k :: 0 <= k < |hs| ==> InOrder(x, ids, hs, k))
    && (forall pos :: 0 <= pos < |ids| && IsPrivatePda(ids[pos]) ==> PlaceIsBound(x, ids, hs, pos))
    && (forall e :: e in JournalOf(x, ids, hs) ==> LeftInOrder(hs, e))
  }

  ghost predicate PlaceIsBound(x: Crypto, ids: seq<InputAccountIdentity>, hs: seq<Handling>, pos: nat)
  {
    exists j :: 0 <= j < |hs| && PlaceAt(x, ids, hs, j) == pos && PlacedAt(x, ids, hs, j) != {}
  }

  ghost predicate LeftInOrder(hs: seq<Handling>, e: AccountWithMetadata)
  {
    e.account.programOwner == DEFAULT_PROGRAM_OWNER ==>
      && e.accountId in LeftAs(hs)
      && (LeftAs(hs)[e.accountId] == e.account || LeftAs(hs)[e.accountId].programOwner != DEFAULT_PROGRAM_OWNER)
  }

  lemma {:induction false} BoundIffPlaced(x: Crypto, ids: seq<InputAccountIdentity>, s: Exec, hs: seq<Handling>, pos: nat)
    requires RecordsBindings(x, ids, s, hs)
    ensures pos in s.boundPositions <==> PlaceIsBound(x, ids, hs, pos)
  {
    hide PlaceAt, PlacedAt, ResolvedAt;
    if j :| 0 <= j < |hs| && PlaceAt(x, ids, hs, j) == pos && PlacedAt(x, ids, hs, j) != {} {
      var b :| b in PlacedAt(x, ids, hs, j);
    }
  }

  lemma {:induction false} FinalChecksIff(x: Crypto, ids: seq<InputAccountIdentity>, s: Exec, hs: seq<Handling>)
    requires Summarizes(x, ids, s, hs)
    ensures AllPdasBound(ids, s) && AllModifiedClaimed(s)
            <==> && (forall pos :: 0 <= pos < |ids| && IsPrivatePda(ids[pos]) ==> PlaceIsBound(x, ids, hs, pos))
                 && (forall e :: e in JournalOf(x, ids, hs) ==> LeftInOrder(hs, e))
  {
    hide JournalOf, LeftAs, RecordsBindings, PlaceIsBound, GlobalsJournaled, IsPrivatePda;
    forall pos | 0 <= pos < |ids|
      ensures pos in s.boundPositions <==> PlaceIsBound(x, ids, hs, pos)
    {
      BoundIffPlaced(x, ids, s, hs, pos);
    }
    forall i | 0 <= i < |s.preStates|
      ensures ModifiedIsClaimed(s, i) <==> LeftInOrder(hs, s.preStates[i])
      ensures s.preStates[i] in JournalOf(x, ids, hs)
    {
    }
  }

  /** The tree of an accepted transaction, whose state is `s`. */
  ghost predicate RunsTo(x: Crypto, ids: seq<InputAccountIdentity>, program: ProgramId, outputs: seq<ProgramOutput>, f: Calls, s: Exec)
  {
    && IsCallTree(x, program, outputs, f)
    && Handle(x, ids, EMPTY_EXEC, TreeHandlings(f, RootFrame(program, outputs[0]))) == Some(s)
  }

  lemma {:induction false} WorkIffRuns(
    x: Crypto, ids: seq<InputAccountIdentity>, program: ProgramId, outputs: seq<ProgramOutput>, s: Exec)
    requires outputs != []
    ensures Work(x, ids, EMPTY_EXEC, [RootFrame(program, outputs[0])], outputs, 0) == Some(s)
            <==> |outputs| <= MAX_NUMBER_CHAINED_CALLS + 1 && exists f :: RunsTo(x, ids, program, outputs, f, s)
  {
    hide Work, Execute, Matches, Preorder, Handle, TreeHandlings;
    var root := [RootFrame(program, outputs[0])];
    if Work(x, ids, EMPTY_EXEC, root, outputs, 0) == Some(s) {
      var f := WorklistFindsTree(x, ids, EMPTY_EXEC, root, outputs, 0);
      TreeIsHandled(x, ids, f, root[0]);
      assert RunsTo(x, ids, program, outputs, f, s);
    }
    if |outputs| <= MAX_NUMBER_CHAINED_CALLS + 1 && exists f :: RunsTo(x, ids, program, outputs, f, s) {
      var f :| RunsTo(x, ids, program, outputs, f, s);
      TreeIsHandled(x, ids, f, root[0]);
      TreeRunsOnWorklist(x, ids, EMPTY_EXEC, f, root, 0);
    }
  }

  lemma {:induction false} TreeIsHandled(x: Crypto, ids: seq<InputAccountIdentity>, f: Calls, root: Frame)
    requires Matches(x, f, [root])
    ensures Execute(x, ids, EMPTY_EXEC, f, [root]) == Handle(x, ids, EMPTY_EXEC, TreeHandlings(f, root))
  {
    hide Execute, Handle, AllHandlings, Matches;
    ExecuteIsHandle(x, ids, EMPTY_EXEC, f, [root], []);
  }

  /** What the circuit accepts: the outputs are those of a call tree of at most eleven calls, each a proven,
      well-behaved run of the call that was made, their validity windows have a point in common as far as
      the circuit looks, and the tree handles its accounts coherently. */
  lemma {:induction false} DerivedIff(x: Crypto, ids: seq<InputAccountIdentity>, program: ProgramId, outputs: seq<ProgramOutput>)
    ensures Derive(x, ids, program, outputs).Some?
            <==> && outputs != [] && |outputs| <= MAX_NUMBER_CHAINED_CALLS + 1
                 && CommonWindow(BlockWindows(outputs)).Some? && CommonWindow(TimestampWindows(outputs)).Some?
                 && exists f :: && IsCallTree(x, program, outputs, f)
                                && Coherent(x, ids, TreeHandlings(f, RootFrame(program, outputs[0])))
  {
    hide Work, CommonWindow, IsCallTree, TreeHandlings, InOrder, PlaceIsBound, LeftInOrder, JournalOf, Summarizes, Handle;
    if outputs != [] {
      var root := RootFrame(program, outputs[0]);
      if Derive(x, ids, program, outputs).Some? {
        var s := Derive(x, ids, program, outputs).value.exec;
        WorkIffRuns(x, ids, program, outputs, s);
        var f :| RunsTo(x, ids, program, outputs, f, s);
        CoherentIff(x, ids, s, TreeHandlings(f, root));
      }
      if f :| IsCallTree(x, program, outputs, f) && Coherent(x, ids, TreeHandlings(f, root)) {
        HistoryRunsIff(x, ids, TreeHandlings(f, root));
        var s := Handle(x, ids, EMPTY_EXEC, TreeHandlings(f, root)).value;
        CoherentIff(x, ids, s, TreeHandlings(f, root));
        assert RunsTo(x, ids, program, outputs, f, s);
        WorkIffRuns(x, ids, program, outputs, s);
      }
    }
  }

  lemma {:induction false} CoherentIff(x: Crypto, ids: seq<InputAccountIdentity>, s: Exec, hs: seq<Handling>)
    requires Handle(x, ids, EMPTY_EXEC, hs) == Some(s)
    ensures Coherent(x, ids, hs) <==> AllPdasBound(ids, s) && AllModifiedClaimed(s)
    ensures Summarizes(x, ids, s, hs)
  {
    hide InOrder, PlaceIsBound, LeftInOrder, JournalOf, Summarizes, Handle, AllPdasBound, AllModifiedClaimed;
    HistoryRunsIff(x, ids, hs);
    FinalChecksIff(x, ids, s, hs);
  }

  /** The circuit as a whole accepts exactly what it can derive and whose journal meets its witnesses: as
      many identities as accounts, and every private account passing its checks. The journal is that of
      the one call tree. */
  lemma {:induction false} CircuitAcceptsIff(
    x: Crypto, ids: seq<InputAccountIdentity>, program: ProgramId, outputs: seq<ProgramOutput>, f: Calls)
    requires IsCallTree(x, program, outputs, f)
    ensures var hs := TreeHandlings(f, RootFrame(program, outputs[0]));
            var journal := JournalOf(x, ids, hs);
            Derive(x, ids, program, outputs).Some? && Sealable(x, ids, Derive(x, ids, program, outputs).value.exec)
            <==> && |outputs| <= MAX_NUMBER_CHAINED_CALLS + 1
                 && CommonWindow(BlockWindows(outputs)).Some? && CommonWindow(TimestampWindows(outputs)).Some?
                 && Coherent(x, ids, hs)
                 && |ids| == |journal|
                 && forall pos :: 0 <= pos < |ids| && ids[pos].PrivateIdentity? ==>
                      PassesChecks(x, ids[pos].evidence, PlaceIsBound(x, ids, hs, pos), journal[pos])
  {
    var root := RootFrame(program, outputs[0]);
    var hs := TreeHandlings(f, root);
    DerivedIff(x, ids, program, outputs);
    hide IsCallTree;
    forall g | IsCallTree(x, program, outputs, g)
      ensures g == f
    {
      SameTree(x, program, outputs, f, g);
    }
    if Derive(x, ids, program, outputs).Some? {
      var s := Derive(x, ids, program, outputs).value.exec;
      AcceptedState(x, ids, program, outputs, f, s);
      hide Derive, Coherent, CommonWindow, TreeHandlings, PassesChecks, PlaceIsBound, JournalOf, IsCallTree, Sealable;
      SealableIff(x, ids, s);
      forall pos | 0 <= pos < |ids|
        ensures pos in s.boundPositions <==> PlaceIsBound(x, ids, hs, pos)
      {
        BoundIffPlaced(x, ids, s, hs, pos);
      }
    }
  }

  /** The state of an accepted transaction is that of its tree's history. */
  lemma {:induction false} AcceptedState(
    x: Crypto, ids: seq<InputAccountIdentity>, program: ProgramId, outputs: seq<ProgramOutput>, f: Calls, s: Exec)
    requires Derive(x, ids, program, outputs).Some? && s == Derive(x, ids, program, outputs).value.exec
    requires IsCallTree(x, program, outputs, f)
    ensures var hs := TreeHandlings(f, RootFrame(program, outputs[0]));
            Coherent(x, ids, hs) && Summarizes(x, ids, s, hs)
  {
    var root := RootFrame(program, outputs[0]);
    WorkIffRuns(x, ids, program, outputs, s);
    hide Work, CommonWindow, TreeHandlings, InOrder, PlaceIsBound, LeftInOrder, JournalOf, Summarizes, Handle;
    var g :| RunsTo(x, ids, program, outputs, g, s);
    SameTree(x, program, outputs, f, g);
    CoherentIff(x, ids, s, TreeHandlings(f, root));
  }

  lemma {:induction false} SameTree(x: Crypto, program: ProgramId, outputs: seq<ProgramOutput>, f: Calls, g: Calls)
    requires IsCallTree(x, program, outputs, f) && IsCallTree(x, program, outputs, g)
    ensures f == g
  {
    hide Matches, Preorder;
    TreeIsUnique(x, f, g, [RootFrame(program, outputs[0])], [], []);
  }
}
