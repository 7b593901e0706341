/** Which blocks of a peer's channel are accepted as its chain (`lez/cross_zone/src/acceptance.rs`),
    folded over whole streams by the watcher and by the verifier's cache. */
module PeerAcceptance {
  import opened Prelude
  import opened LedgerState
  import opened Blocks

  datatype PeerChainTip = PeerChainTip(blockId: nat, blockHash: Hash)

  datatype OffChain =
    | DoesNotLink(blockId: nat, tipId: nat, linksTo: Hash, expected: Hash)
    | NotTheGenesis(id: nat)
    | SkipsAhead(ahead: nat, next: nat)

  datatype Link =
    | Next(hash: Hash)
    | AlreadySeen(equivocates: bool)
    | OffTheChain(reason: OffChain)

  datatype ScreenRefusal =
    | HashRefused(blockId: nat, declared: Hash, recomputed: Hash)
    | KeyRefused(id: nat)

  function ScreenPeerBlock(l: Ledger, b: Block, key: Option<Data>): Result<Hash, ScreenRefusal>
  {
    var recomputed := RecomputeHash(l, b);
    if recomputed != b.header.hash then Failure(HashRefused(b.header.blockId, b.header.hash, recomputed))
    else if key.Some? && !IsSignedBy(l, b, key.value) then Failure(KeyRefused(b.header.blockId))
    else Success(recomputed)
  }

  function LinkToTip(tip: Option<PeerChainTip>, b: Block, recomputed: Hash): Link
  {
    var id := b.header.blockId;
    match tip
    case None => if id == GENESIS_BLOCK_ID then Next(recomputed) else OffTheChain(NotTheGenesis(id))
    case Some(t) =>
      if id <= t.blockId then AlreadySeen(id == t.blockId && recomputed != t.blockHash)
      else if id > t.blockId + 1 then OffTheChain(SkipsAhead(id, t.blockId + 1))
      else if b.header.prevBlockHash != t.blockHash then
        OffTheChain(DoesNotLink(id, t.blockId, b.header.prevBlockHash, t.blockHash))
      else Next(recomputed)
  }

  /** The tip that pins an accepted run. */
  function RunTip(run: seq<Block>): Option<PeerChainTip>
  {
    if run == [] then None
    else Some(PeerChainTip(run[|run| - 1].header.blockId, run[|run| - 1].header.hash))
  }

  predicate Screened(l: Ledger, b: Block, key: Option<Data>)
  {
    ScreenPeerBlock(l, b, key).Success?
  }

  /** The block carries the hash of its own contents and, if a key is configured for the peer, a
      signature of that hash that is valid under the key. */
  ghost predicate Authentic(l: Ledger, b: Block, key: Option<Data>)
  {
    && b.header.hash == l.blockHash(Hashed(b))
    && (key.Some? ==> l.signatureValid(b.header.signature, l.blockHash(Hashed(b)), key.value))
  }

  /** Screening lets exactly the authentic blocks through, and says what is wrong with the others: the
      hash first, then the key. */
  lemma {:induction false} ScreenedIff(l: Ledger, b: Block, key: Option<Data>)
    ensures Screened(l, b, key) <==> Authentic(l, b, key)
    ensures Screened(l, b, key) ==> ScreenPeerBlock(l, b, key) == Success(b.header.hash)
    ensures !Authentic(l, b, None) <==>
              ScreenPeerBlock(l, b, key) == Failure(HashRefused(b.header.blockId, b.header.hash, l.blockHash(Hashed(b))))
    ensures Authentic(l, b, None) && !Authentic(l, b, key) <==> ScreenPeerBlock(l, b, key) == Failure(KeyRefused(b.header.blockId))
  {
  }

  /** Screened blocks numbered from genesis without gaps, each naming its predecessor's hash. */
  ghost predicate LinkedRun(l: Ledger, key: Option<Data>, run: seq<Block>)
  {
    && (forall i :: 0 <= i < |run| ==> Screened(l, run[i], key) && run[i].header.blockId == GENESIS_BLOCK_ID + i)
    && (forall i, j :: 0 <= i < j < |run| && j == i + 1 ==> run[j].header.prevBlockHash == run[i].header.hash)
  }

  /** `b` is the block after `run`: the next id and, above genesis, the right parent. */
  ghost predicate Follows(run: seq<Block>, b: Block)
  {
    && b.header.blockId == GENESIS_BLOCK_ID + |run|
    && (run != [] ==> b.header.prevBlockHash == run[|run| - 1].header.hash)
  }

  lemma {:induction false} NextIffFollows(l: Ledger, key: Option<Data>, run: seq<Block>, b: Block, h: Hash)
    requires LinkedRun(l, key, run)
    ensures LinkToTip(RunTip(run), b, h).Next? <==> Follows(run, b)
  {
  }

  /** Every answer to a block, on the run it is held against: the next one, one at or below the run's
      last id, which equivocates if it has that id and another hash, one that skips ahead, one with the
      next id and another parent, and before any run anything but a genesis. */
  lemma {:induction false} LinkExact(l: Ledger, key: Option<Data>, run: seq<Block>, b: Block, h: Hash)
    requires LinkedRun(l, key, run)
    ensures var link, id, next := LinkToTip(RunTip(run), b, h), b.header.blockId, GENESIS_BLOCK_ID + |run|;
            && (link == Next(h) <==> Follows(run, b))
            && (link.AlreadySeen? <==> run != [] && id < next)
            && (link.AlreadySeen? ==> (link.equivocates <==> id == next - 1 && h != run[|run| - 1].header.hash))
            && (link == OffTheChain(NotTheGenesis(id)) <==> run == [] && id != GENESIS_BLOCK_ID)
            && (link == OffTheChain(SkipsAhead(id, next)) <==> run != [] && id > next)
            && (run != [] ==>
                  (link == OffTheChain(DoesNotLink(id, next - 1, b.header.prevBlockHash, run[|run| - 1].header.hash))
                   <==> id == next && !Follows(run, b)))
  {
  }

  // ---- the watcher ----

  /** One block off the peer's channel: accepted only if screened and next. */
  function Watch(l: Ledger, key: Option<Data>, run: seq<Block>, b: Block): seq<Block>
  {
    match ScreenPeerBlock(l, b, key)
    case Failure(_) => run
    case Success(h) => if LinkToTip(RunTip(run), b, h).Next? then run + [b] else run
  }

  /** The run accepted from a whole stream. */
  function Accepted(l: Ledger, key: Option<Data>, stream: seq<Block>): seq<Block>
    decreases |stream|
  {
    if stream == [] then []
    else Watch(l, key, Accepted(l, key, stream[..|stream| - 1]), stream[|stream| - 1])
  }

  /** Whatever the stream holds, what is accepted from it is a linked run of its blocks, so every
      id is accepted at most once and in order. */
  lemma {:induction false} AcceptedIsLinkedRun(l: Ledger, key: Option<Data>, stream: seq<Block>)
    ensures LinkedRun(l, key, Accepted(l, key, stream))
    ensures forall b :: b in Accepted(l, key, stream) ==> b in stream && Authentic(l, b, key)
    decreases |stream|
  {
    if stream != [] {
      ScreenedIff(l, stream[|stream| - 1], key);
      var before := Accepted(l, key, stream[..|stream| - 1]);
      AcceptedIsLinkedRun(l, key, stream[..|stream| - 1]);
      NextIffFollows(l, key, before, stream[|stream| - 1], RecomputeHash(l, stream[|stream| - 1]));
    }
  }

  /** Screened blocks with the same hashed contents carry the same hash. */
  lemma {:induction false} ContentsFixHash(l: Ledger, key: Option<Data>, a: Block, b: Block)
    requires Screened(l, a, key) && Screened(l, b, key) && Hashed(a) == Hashed(b)
    ensures a.header.hash == b.header.hash
  {
  }

  /** Two readers of a peer can only part ways by equivocation: where the contents of their runs first
      differ, the peer produced two screened blocks with different contents, the same id and the same
      parent, and, unless they collide, with different hashes. */
  lemma {:induction false} FirstDifferenceIsEquivocation(
    l: Ledger, key: Option<Data>, s: seq<Block>, t: seq<Block>, i: nat)
    requires var xs, ys := Accepted(l, key, s), Accepted(l, key, t);
             i < |xs| && i < |ys| && HashedAll(xs[..i]) == HashedAll(ys[..i]) && Hashed(xs[i]) != Hashed(ys[i])
    ensures var x, y := Accepted(l, key, s)[i], Accepted(l, key, t)[i];
            && x in s && y in t
            && Screened(l, x, key) && Screened(l, y, key)
            && x.header.blockId == y.header.blockId == GENESIS_BLOCK_ID + i
            && (i > 0 ==> x.header.prevBlockHash == y.header.prevBlockHash)
            && (CollisionFreeOn(l, [x, y]) ==> x.header.hash != y.header.hash)
  {
    AcceptedIsLinkedRun(l, key, s);
    AcceptedIsLinkedRun(l, key, t);
    var xs, ys := Accepted(l, key, s), Accepted(l, key, t);
    assert xs[i] in xs && ys[i] in ys;
    if i > 0 {
      assert Hashed(xs[i - 1]) == HashedAll(xs[..i])[i - 1] == HashedAll(ys[..i])[i - 1] == Hashed(ys[i - 1]);
      ContentsFixHash(l, key, xs[i - 1], ys[i - 1]);
    }
    if CollisionFreeOn(l, [xs[i], ys[i]]) {
      assert xs[i] in [xs[i], ys[i]] && ys[i] in [xs[i], ys[i]];
    }
  }

  lemma {:induction false} LinkedRunPrefix(l: Ledger, key: Option<Data>, run: seq<Block>)
    requires LinkedRun(l, key, run) && run != []
    ensures var n := |run| - 1;
            && LinkedRun(l, key, run[..n])
            && Follows(run[..n], run[n])
            && run[n].header.hash == RecomputeHash(l, run[n])
            && run[n].header.blockId == GENESIS_BLOCK_ID + n
  {
  }

  /** Readers with the same tip accepted the same contents, if no two accepted blocks collide. */
  lemma {:induction false} SameTipSameRun(l: Ledger, key: Option<Data>, xs: seq<Block>, ys: seq<Block>)
    requires LinkedRun(l, key, xs) && LinkedRun(l, key, ys)
    requires RunTip(xs) == RunTip(ys)
    requires CollisionFreeOn(l, xs + ys)
    ensures HashedAll(xs) == HashedAll(ys)
    decreases |xs|
  {
    hide LinkedRun;
    if xs != [] {
      var n := |xs| - 1;
      LinkedRunPrefix(l, key, xs);
      LinkedRunPrefix(l, key, ys);
      assert |ys| == |xs|;
      assert xs[n] in xs + ys && ys[n] in xs + ys;
      assert Hashed(xs[n]) == Hashed(ys[n]);
      CollisionFreePrefixes(l, xs, ys, n);
      SameTipSameRun(l, key, xs[..n], ys[..n]);
      HashedAllSnoc(xs);
      HashedAllSnoc(ys);
    }
  }

  // ---- progress ----

  /** `b` is a screened copy of `h`, however signed. */
  predicate Serves(l: Ledger, key: Option<Data>, b: Block, h: Block)
  {
    Screened(l, b, key) && Hashed(b) == Hashed(h)
  }

  /** Copies of the honest blocks can be read off the stream in order, whatever lies between them. */
  predicate ReadableFrom(l: Ledger, key: Option<Data>, honest: seq<Block>, stream: seq<Block>)
    decreases |stream|
  {
    if honest == [] then true
    else if stream == [] then false
    else
      var m, n := |honest| - 1, |stream| - 1;
      || (Serves(l, key, stream[n], honest[m]) && ReadableFrom(l, key, honest[..m], stream[..n]))
      || ReadableFrom(l, key, honest, stream[..n])
  }

  /** No block of the stream with other contents competes with an honest one for its place. */
  ghost predicate NoEquivocation(l: Ledger, key: Option<Data>, honest: seq<Block>, stream: seq<Block>)
  {
    forall b, i :: b in stream && 0 <= i < |honest| && Screened(l, b, key) && Follows(honest[..i], b)
                   ==> Hashed(b) == Hashed(honest[i])
  }

  lemma {:induction false} NoEquivocationPrefix(
    l: Ledger, key: Option<Data>, honest: seq<Block>, stream: seq<Block>, m: nat, n: nat)
    requires NoEquivocation(l, key, honest, stream) && m <= |honest| && n <= |stream|
    ensures NoEquivocation(l, key, honest[..m], stream[..n])
  {
    forall b, i | b in stream[..n] && 0 <= i < m && Screened(l, b, key) && Follows(honest[..m][..i], b)
      ensures Hashed(b) == Hashed(honest[..m][i])
    {
      assert honest[..m][..i] == honest[..i];
      assert b in stream;
    }
  }

  /** What follows a run depends on the contents of the run only. */
  lemma {:induction false} FollowsByContents(l: Ledger, key: Option<Data>, xs: seq<Block>, ys: seq<Block>, b: Block)
    requires LinkedRun(l, key, xs) && LinkedRun(l, key, ys) && HashedAll(xs) == HashedAll(ys)
    ensures Follows(xs, b) <==> Follows(ys, b)
  {
    assert |xs| == |HashedAll(xs)| == |HashedAll(ys)| == |ys|;
    if xs != [] {
      var n := |xs| - 1;
      assert Hashed(xs[n]) == HashedAll(xs)[n] == HashedAll(ys)[n] == Hashed(ys[n]);
      ContentsFixHash(l, key, xs[n], ys[n]);
    }
  }

  lemma {:induction false} WatchExtends(l: Ledger, key: Option<Data>, run: seq<Block>, b: Block)
    ensures HashedAll(run) <= HashedAll(Watch(l, key, run, b))
  {
    var after := Watch(l, key, run, b);
    assert run <= after;
    assert forall i :: 0 <= i < |run| ==> HashedAll(run)[i] == HashedAll(after)[i];
  }

  lemma {:induction false} HashedAllTake(bs: seq<Block>, n: nat)
    requires n <= |bs|
    ensures HashedAll(bs[..n]) == HashedAll(bs)[..n]
  {
  }

  lemma {:induction false} LinkedRunTake(l: Ledger, key: Option<Data>, run: seq<Block>, n: nat)
    requires LinkedRun(l, key, run) && n <= |run|
    ensures LinkedRun(l, key, run[..n])
    ensures n < |run| ==> Follows(run[..n], run[n]) && Screened(l, run[n], key)
  {
  }

  /** A run that got past `honest` took the honest contents there, if nothing competed with them. */
  lemma {:induction false} RunContinuesHonestly(
    l: Ledger, key: Option<Data>, honest: seq<Block>, stream: seq<Block>, run: seq<Block>)
    requires honest != [] && LinkedRun(l, key, honest) && NoEquivocation(l, key, honest, stream)
    requires LinkedRun(l, key, run) && HashedAll(honest[..|honest| - 1]) < HashedAll(run)
    requires forall b :: b in run ==> b in stream
    ensures HashedAll(honest) <= HashedAll(run)
  {
    var m := |honest| - 1;
    HashedAllTake(run, m);
    HashedAllSnoc(honest);
    LinkedRunTake(l, key, run, m);
    LinkedRunTake(l, key, honest, m);
    FollowsByContents(l, key, run[..m], honest[..m], run[m]);
    assert run[m] in run;
    assert Hashed(run[m]) == Hashed(honest[m]);
    assert HashedAll(run)[..m + 1] == HashedAll(run)[..m] + [HashedAll(run)[m]];
  }

  /** Nothing a peer inscribes beside its own chain can stop deliveries: if copies of its honest
      blocks are read in order, whatever lies between them, and nothing with other contents competes
      with one of them, the accepted run has the whole honest chain as its beginning. */
  lemma {:induction false} HonestRunIsAccepted(l: Ledger, key: Option<Data>, honest: seq<Block>, stream: seq<Block>)
    requires LinkedRun(l, key, honest) && ReadableFrom(l, key, honest, stream) && NoEquivocation(l, key, honest, stream)
    ensures HashedAll(honest) <= HashedAll(Accepted(l, key, stream))
    decreases |stream|
  {
    if honest != [] {
      hide LinkedRun, NoEquivocation, Watch, HashedAll;
      var m, n := |honest| - 1, |stream| - 1;
      var before, b := Accepted(l, key, stream[..n]), stream[n];
      AcceptedIsLinkedRun(l, key, stream[..n]);
      WatchExtends(l, key, before, b);
      if ReadableFrom(l, key, honest, stream[..n]) {
        NoEquivocationPrefix(l, key, honest, stream, |honest|, n);
        assert honest[..|honest|] == honest;
        HonestRunIsAccepted(l, key, honest, stream[..n]);
      } else {
        NoEquivocationPrefix(l, key, honest, stream, m, n);
        LinkedRunTake(l, key, honest, m);
        HonestRunIsAccepted(l, key, honest[..m], stream[..n]);
        if HashedAll(before) == HashedAll(honest[..m]) {
          CopyIsTaken(l, key, honest, before, b);
        } else {
          assert forall x :: x in before ==> x in stream;
          RunContinuesHonestly(l, key, honest, stream, before);
        }
      }
    }
  }

  lemma {:induction false} CopyIsTaken(l: Ledger, key: Option<Data>, honest: seq<Block>, run: seq<Block>, b: Block)
    requires honest != [] && LinkedRun(l, key, honest) && LinkedRun(l, key, run)
    requires HashedAll(run) == HashedAll(honest[..|honest| - 1]) && Serves(l, key, b, honest[|honest| - 1])
    ensures HashedAll(Watch(l, key, run, b)) == HashedAll(honest)
  {
    var m := |honest| - 1;
    LinkedRunTake(l, key, honest, m);
    FollowsByContents(l, key, run, honest[..m], b);
    NextIffFollows(l, key, run, b, RecomputeHash(l, b));
    HashedAllSnoc(honest);
    HashedAllSnoc(run + [b]);
    assert (run + [b])[..|run|] == run;
  }

  // ---- the verifier's cache ----

  /** The verified run and, at most, one block cached at the id after it that does not continue it. */
  datatype Cache = Cache(run: seq<Block>, stray: Option<Block>)

  function CacheInsert(c: Cache, b: Block): Cache
  {
    match LinkToTip(RunTip(c.run), b, b.header.hash)
    case Next(_) =>
      if c.stray.Some? && c.stray.value.header.hash == b.header.hash then c else Cache(c.run + [b], None)
    case OffTheChain(DoesNotLink(_, _, _, _)) => if c.stray.Some? then c else Cache(c.run, Some(b))
    case _ => c
  }

  function CacheAll(l: Ledger, key: Option<Data>, stream: seq<Block>): Cache
    decreases |stream|
  {
    if stream == [] then Cache([], None)
    else
      var before := CacheAll(l, key, stream[..|stream| - 1]);
      var b := stream[|stream| - 1];
      if Screened(l, b, key) then CacheInsert(before, b) else before
  }

  ghost predicate CacheInvariant(l: Ledger, key: Option<Data>, c: Cache)
  {
    && LinkedRun(l, key, c.run)
    && (c.stray.Some? ==>
          && Screened(l, c.stray.value, key)
          && c.run != []
          && c.stray.value.header.blockId == GENESIS_BLOCK_ID + |c.run|
          && !Follows(c.run, c.stray.value))
  }

  lemma {:induction false} InsertKeepsInvariant(l: Ledger, key: Option<Data>, c: Cache, b: Block)
    requires CacheInvariant(l, key, c) && Screened(l, b, key)
    ensures CacheInvariant(l, key, CacheInsert(c, b))
  {
    NextIffFollows(l, key, c.run, b, b.header.hash);
  }

  /** The cache follows the watcher on a block exactly unless a cached stray block, which does not
      continue the run, hashes to the same value as one that does. */
  lemma {:induction false} CacheFollowsWatcherIff(l: Ledger, key: Option<Data>, c: Cache, b: Block)
    requires CacheInvariant(l, key, c) && Screened(l, b, key)
    ensures CacheInsert(c, b).run == Watch(l, key, c.run, b)
            <==> !(c.stray.Some? && c.stray.value.header.hash == b.header.hash && Follows(c.run, b))
    ensures var collides := c.stray.Some? && c.stray.value.header.hash == b.header.hash;
            CacheInsert(c, b).stray
            == if Follows(c.run, b) then (if collides then c.stray else None)
               else if c.run != [] && b.header.blockId == GENESIS_BLOCK_ID + |c.run| && c.stray.None? then Some(b)
               else c.stray
  {
    NextIffFollows(l, key, c.run, b, b.header.hash);
  }

  lemma {:induction false} CollisionFreeTake(l: Ledger, bs: seq<Block>, n: nat)
    requires CollisionFreeOn(l, bs) && n <= |bs|
    ensures CollisionFreeOn(l, bs[..n])
  {
    assert forall b :: b in bs[..n] ==> b in bs;
  }

  lemma {:induction false} StrayDoesNotCollide(l: Ledger, key: Option<Data>, c: Cache, stream: seq<Block>, b: Block)
    requires CollisionFreeOn(l, stream) && CacheInvariant(l, key, c) && Screened(l, b, key) && b in stream
    requires c.stray.Some? ==> c.stray.value in stream
    ensures !(c.stray.Some? && c.stray.value.header.hash == b.header.hash && Follows(c.run, b))
  {
    hide LinkedRun;
    if c.stray.Some? && c.stray.value.header.hash == b.header.hash {
      assert Hashed(c.stray.value) == Hashed(b);
    }
  }

  /** Served the same blocks in the same order, the verifier's cache and the watcher accept the same
      run, provided no two of the blocks collide. */
  lemma {:induction false} VerifierAgreesWithWatcher(l: Ledger, key: Option<Data>, stream: seq<Block>)
    requires CollisionFreeOn(l, stream)
    ensures CacheInvariant(l, key, CacheAll(l, key, stream))
    ensures CacheAll(l, key, stream).run == Accepted(l, key, stream)
    ensures CacheAll(l, key, stream).stray.Some? ==> CacheAll(l, key, stream).stray.value in stream
    decreases |stream|
  {
    if stream != [] {
      hide CacheInvariant, Watch, CacheInsert, Screened, CollisionFreeOn, Follows;
      var n := |stream| - 1;
      var before, b := CacheAll(l, key, stream[..n]), stream[n];
      CollisionFreeTake(l, stream, n);
      VerifierAgreesWithWatcher(l, key, stream[..n]);
      assert stream == stream[..n] + [b];
      if Screened(l, b, key) {
        InsertKeepsInvariant(l, key, before, b);
        CacheFollowsWatcherIff(l, key, before, b);
        StrayDoesNotCollide(l, key, before, stream, b);
      } else {
        RefusedIsIgnored(l, key, before.run, b);
      }
    }
  }

  lemma {:induction false} RefusedIsIgnored(l: Ledger, key: Option<Data>, run: seq<Block>, b: Block)
    requires !Screened(l, b, key)
    ensures Watch(l, key, run, b) == run
  {
  }
}
