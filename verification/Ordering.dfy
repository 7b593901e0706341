/** The order in which private actions leave the circuit
    (`obfuscate_output_ordering` in `lee/privacy_preserving_circuit/src/output.rs`). */
module Ordering {
  import opened Prelude
  import opened LedgerState

  datatype EncryptedNote = EncryptedNote(ciphertext: Data, epk: Data, viewTag: nat)

  datatype PrivateAction = PrivateAction(nullifier: Bytes32, root: Bytes32, commitment: Bytes32, note: EncryptedNote)

  /** What stays with a nullifier: everything but the commitment. */
  datatype Spend = Spend(nullifier: Bytes32, root: Bytes32, note: EncryptedNote)

  function SpendOf(a: PrivateAction): Spend
  {
    Spend(a.nullifier, a.root, a.note)
  }

  function NullifierOf(s: Spend): Bytes32
  {
    s.nullifier
  }

  function CommitmentOf(a: PrivateAction): Bytes32
  {
    a.commitment
  }

  function Spends(actions: seq<PrivateAction>): seq<Spend>
  {
    Mapped(SpendOf, actions)
  }

  function Nullifiers(actions: seq<PrivateAction>): seq<Bytes32>
  {
    Mapped(NullifierOf, Spends(actions))
  }

  function Commitments(actions: seq<PrivateAction>): seq<Bytes32>
  {
    Mapped(CommitmentOf, actions)
  }

  ghost predicate Sorted(xs: seq<Bytes32>)
  {
    forall i, j :: 0 <= i < j < |xs| ==> xs[i] <= xs[j]
  }

  /** Gives each action the commitment at its index. */
  function Rejoin(actions: seq<PrivateAction>, commitments: seq<Bytes32>): (r: seq<PrivateAction>)
    requires |actions| == |commitments|
    ensures |r| == |actions|
    ensures forall i :: 0 <= i < |r| ==> r[i] == actions[i].(commitment := commitments[i])
  {
    seq(|actions|, i requires 0 <= i < |actions| => actions[i].(commitment := commitments[i]))
  }

  /** `sorted` and `commitments` are results an unstable sort may give for `actions`. */
  ghost predicate SortedParts(actions: seq<PrivateAction>, sorted: seq<PrivateAction>, commitments: seq<Bytes32>)
  {
    && Permutes(sorted, actions) && Sorted(Nullifiers(sorted))
    && Permutes(commitments, Commitments(actions)) && Sorted(commitments)
  }

  /** `out` is a possible final order of `actions`: they are sorted by nullifier, their commitments
      are sorted separately, and the two are rejoined. */
  ghost predicate Obfuscates(actions: seq<PrivateAction>, out: seq<PrivateAction>)
  {
    exists sorted, commitments ::
      && SortedParts(actions, sorted, commitments) && |sorted| == |commitments|
      && out == Rejoin(sorted, commitments)
  }

  // ---- sorting ----

  predicate ByValue(a: Bytes32, b: Bytes32)
  {
    a <= b
  }

  predicate ByNullifier(a: PrivateAction, b: PrivateAction)
  {
    a.nullifier <= b.nullifier
  }

  lemma {:induction false} SortedPartsExist(actions: seq<PrivateAction>)
    ensures SortedParts(actions, Sort(ByNullifier, actions), Sort(ByValue, Commitments(actions)))
    ensures |Sort(ByNullifier, actions)| == |Sort(ByValue, Commitments(actions))|
    ensures forall a :: a in actions ==> a in Sort(ByNullifier, actions)
  {
    SortOrders(ByNullifier, actions);
    SortOrders(ByValue, Commitments(actions));
    var sorted, commitments := Sort(ByNullifier, actions), Sort(ByValue, Commitments(actions));
    PermutationLengths(sorted, actions);
    PermutationLengths(commitments, Commitments(actions));
    forall a | a in actions
      ensures a in sorted
    {
      PermutationKeepsMembers(sorted, actions, a);
    }
    forall i, j | 0 <= i < j < |sorted|
      ensures Nullifiers(sorted)[i] <= Nullifiers(sorted)[j]
    {
      assert ByNullifier(sorted[i], sorted[j]);
    }
    forall i, j | 0 <= i < j < |commitments|
      ensures commitments[i] <= commitments[j]
    {
      assert ByValue(commitments[i], commitments[j]);
    }
  }

  /** `obfuscate_output_ordering`. */
  method ObfuscateOrdering(actions: seq<PrivateAction>) returns (out: seq<PrivateAction>)
    ensures Obfuscates(actions, out)
  {
    var commitments := Sort(ByValue, Commitments(actions));
    var sorted := Sort(ByNullifier, actions);
    SortedPartsExist(actions);
    out := sorted;
    for i := 0 to |sorted|
      invariant |out| == |sorted|
      invariant forall k :: 0 <= k < i ==> out[k] == sorted[k].(commitment := commitments[k])
      invariant forall k :: i <= k < |out| ==> out[k] == sorted[k]
    {
      out := out[i := out[i].(commitment := commitments[i])];
    }
    assert out == Rejoin(sorted, commitments);
    assert SortedParts(actions, sorted, commitments);
  }

  // ---- what is kept ----

  /** Nothing is lost or invented: the commitments are the same, every nullifier keeps its root and
      ciphertext, and both lists come out sorted. */
  lemma {:induction false} ObfuscationPreserves(actions: seq<PrivateAction>, out: seq<PrivateAction>)
    requires Obfuscates(actions, out)
    ensures Permutes(Commitments(out), Commitments(actions)) && Sorted(Commitments(out))
    ensures Permutes(Spends(out), Spends(actions)) && Sorted(Nullifiers(out))
  {
    var sorted, commitments :| SortedParts(actions, sorted, commitments) && |sorted| == |commitments|
                               && out == Rejoin(sorted, commitments);
    assert Commitments(out) == commitments;
    assert Spends(out) == Spends(sorted);
    assert Nullifiers(out) == Nullifiers(sorted);
    MapPermutes(SpendOf, sorted, actions);
  }

  // ---- canonical order ----

  lemma {:induction false} LastIsLargest(xs: seq<Bytes32>, ys: seq<Bytes32>)
    requires xs != [] && ys != [] && Sorted(ys) && Permutes(xs, ys)
    ensures xs[|xs| - 1] <= ys[|ys| - 1]
  {
    PermutationKeepsMembers(xs, ys, xs[|xs| - 1]);
    var k :| 0 <= k < |ys| && ys[k] == xs[|xs| - 1];
  }

  lemma {:induction false} SortedPermutationUnique(xs: seq<Bytes32>, ys: seq<Bytes32>)
    requires Sorted(xs) && Sorted(ys) && Permutes(xs, ys)
    ensures xs == ys
    decreases |xs|
  {
    PermutationLengths(xs, ys);
    if xs != [] {
      hide Permutes;
      var n := |xs| - 1;
      LastIsLargest(xs, ys);
      PermutesSymmetric(xs, ys);
      LastIsLargest(ys, xs);
      WithoutSame(xs, n, ys, n);
      assert WithoutAt(xs, n) == xs[..n] && WithoutAt(ys, n) == ys[..n];
      SortedPermutationUnique(xs[..n], ys[..n]);
      assert xs == xs[..n] + [xs[n]] && ys == ys[..n] + [ys[n]];
    }
  }

  lemma {:induction false} PermutesSymmetric<T>(xs: seq<T>, ys: seq<T>)
    requires Permutes(xs, ys)
    ensures Permutes(ys, xs)
  {
  }

  /** Actions that share a nullifier share root and ciphertext. Distinct nullifiers are a special case. */
  ghost predicate SpendsFixedByNullifier(actions: seq<PrivateAction>)
  {
    forall a, b :: a in actions && b in actions && a.nullifier == b.nullifier ==> SpendOf(a) == SpendOf(b)
  }

  /** Every order of the same actions, sorted in any way, comes out as the same sequence. */
  ghost predicate CanonicalOrder(actions: seq<PrivateAction>)
  {
    forall xs, ys, out, out' ::
      Permutes(xs, actions) && Permutes(ys, actions) && Obfuscates(xs, out) && Obfuscates(ys, out') ==> out == out'
  }

  lemma {:induction false} FixedSpendsAreCanonical(
    actions: seq<PrivateAction>, xs: seq<PrivateAction>, ys: seq<PrivateAction>, out: seq<PrivateAction>,
    out': seq<PrivateAction>)
    requires SpendsFixedByNullifier(actions)
    requires Permutes(xs, actions) && Permutes(ys, actions) && Obfuscates(xs, out) && Obfuscates(ys, out')
    ensures out == out'
  {
    ObfuscationPreserves(xs, out);
    ObfuscationPreserves(ys, out');
    MapPermutes(CommitmentOf, xs, ys);
    SortedPermutationUnique(Commitments(out), Commitments(out'));
    MapPermutes(SpendOf, xs, ys);
    MapPermutes(NullifierOf, Spends(out), Spends(out'));
    SortedPermutationUnique(Nullifiers(out), Nullifiers(out'));
    hide Sorted, Obfuscates;
    assert |Commitments(out)| == |Commitments(out')|;
    forall i | 0 <= i < |out|
      ensures out[i] == out'[i]
    {
      assert Nullifiers(out)[i] == Nullifiers(out')[i] && Commitments(out)[i] == Commitments(out')[i];
      var a := SpendCameFrom(xs, actions, out, i);
      var b := SpendCameFrom(ys, actions, out', i);
      assert SpendOf(a) == SpendOf(b);
    }
  }

  /** The spend at an index of the output is that of one of the actions. */
  lemma {:induction false} SpendCameFrom(
    xs: seq<PrivateAction>, actions: seq<PrivateAction>, out: seq<PrivateAction>, i: nat) returns (a: PrivateAction)
    requires Permutes(xs, actions) && Permutes(Spends(out), Spends(xs)) && i < |out|
    ensures a in actions && SpendOf(a) == SpendOf(out[i])
  {
    assert Spends(out)[i] in Spends(out);
    PermutationKeepsMembers(Spends(out), Spends(xs), Spends(out)[i]);
    var k :| 0 <= k < |Spends(xs)| && Spends(xs)[k] == Spends(out)[i];
    a := xs[k];
    PermutationKeepsMembers(xs, actions, a);
  }

  /** Exchanging two spends of one nullifier leaves a sorted order sorted. */
  lemma {:induction false} SwapKeepsParts(
    actions: seq<PrivateAction>, sorted: seq<PrivateAction>, commitments: seq<Bytes32>, p: nat, q: nat)
    requires SortedParts(actions, sorted, commitments)
    requires p < |sorted| && q < |sorted| && sorted[p].nullifier == sorted[q].nullifier
    ensures SortedParts(actions, sorted[p := sorted[q]][q := sorted[p]], commitments)
  {
    var swapped := sorted[p := sorted[q]][q := sorted[p]];
    assert multiset(swapped) == multiset(sorted);
    assert Nullifiers(swapped) == Nullifiers(sorted);
  }

  lemma {:induction false} SwapShows(sorted: seq<PrivateAction>, commitments: seq<Bytes32>, p: nat, q: nat)
    requires |sorted| == |commitments| && p < |sorted| && q < |sorted| && SpendOf(sorted[p]) != SpendOf(sorted[q])
    ensures Rejoin(sorted, commitments) != Rejoin(sorted[p := sorted[q]][q := sorted[p]], commitments)
  {
    var swapped := sorted[p := sorted[q]][q := sorted[p]];
    assert SpendOf(Rejoin(sorted, commitments)[p]) == SpendOf(sorted[p]);
    assert SpendOf(Rejoin(swapped, commitments)[p]) == SpendOf(sorted[q]);
  }

  /** Two different spends under one nullifier can come out in either order. */
  lemma {:induction false} AmbiguousSpends(actions: seq<PrivateAction>, a: PrivateAction, b: PrivateAction)
    returns (out: seq<PrivateAction>, out': seq<PrivateAction>)
    requires a in actions && b in actions && a.nullifier == b.nullifier && SpendOf(a) != SpendOf(b)
    ensures Obfuscates(actions, out) && Obfuscates(actions, out') && out != out'
  {
    hide SortedParts, Rejoin, SpendOf, Sort, Permutes;
    SortedPartsExist(actions);
    var sorted, commitments := Sort(ByNullifier, actions), Sort(ByValue, Commitments(actions));
    var p: nat :| p < |sorted| && sorted[p] == a;
    var q: nat :| q < |sorted| && sorted[q] == b;
    SwapKeepsParts(actions, sorted, commitments, p, q);
    SwapShows(sorted, commitments, p, q);
    out := Rejoin(sorted, commitments);
    out' := Rejoin(sorted[p := sorted[q]][q := sorted[p]], commitments);
  }

  /** The final order is canonical exactly when no two actions share a nullifier with different
      roots or ciphertexts. */
  lemma {:induction false} CanonicalOrderIff(actions: seq<PrivateAction>)
    ensures CanonicalOrder(actions) <==> SpendsFixedByNullifier(actions)
  {
    if SpendsFixedByNullifier(actions) {
      forall xs, ys, out, out' | Permutes(xs, actions) && Permutes(ys, actions) && Obfuscates(xs, out) && Obfuscates(ys, out')
        ensures out == out'
      {
        FixedSpendsAreCanonical(actions, xs, ys, out, out');
      }
    } else {
      var a, b :| a in actions && b in actions && a.nullifier == b.nullifier && SpendOf(a) != SpendOf(b);
      var out, out' := AmbiguousSpends(actions, a, b);
      assert Permutes(actions, actions);
    }
  }
}
