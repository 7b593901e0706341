/** When readers of one peer channel, each with its own retries, agree on the peer's chain. */
module ReaderAgreement {
  import opened Prelude
  import opened LedgerState
  import opened Blocks
  import opened PeerAcceptance
  import opened PeerReaders
  import opened ChainRestart

  // ---- what reading on and reading again do ----

  lemma {:induction false} AcceptedStep(l: Ledger, key: Option<Data>, s: seq<Block>, b: Block)
    ensures Accepted(l, key, s + [b]) == Watch(l, key, Accepted(l, key, s), b)
  {
    assert (s + [b])[..|s|] == s;
  }

  lemma {:induction false} SnocConcat(s: seq<Block>, t: seq<Block>)
    requires t != []
    ensures s + t == (s + t[..|t| - 1]) + [t[|t| - 1]]
  {
  }

  /** The accepted run only grows. */
  lemma {:induction false} AcceptedGrows(l: Ledger, key: Option<Data>, s: seq<Block>, t: seq<Block>)
    ensures Accepted(l, key, s) <= Accepted(l, key, s + t)
    decreases |t|
  {
    if t == [] {
      assert s + t == s;
    } else {
      AcceptedGrows(l, key, s, t[..|t| - 1]);
      SnocConcat(s, t);
      AcceptedStep(l, key, s + t[..|t| - 1], t[|t| - 1]);
    }
  }

  /** What is accepted next depends on the run, not on what else was read. */
  lemma {:induction false} AcceptedDependsOnRun(l: Ledger, key: Option<Data>, s: seq<Block>, s': seq<Block>, t: seq<Block>)
    requires Accepted(l, key, s) == Accepted(l, key, s')
    ensures Accepted(l, key, s + t) == Accepted(l, key, s' + t)
    decreases |t|
  {
    if t == [] {
      assert s + t == s && s' + t == s';
    } else {
      AcceptedDependsOnRun(l, key, s, s', t[..|t| - 1]);
      SnocConcat(s, t);
      SnocConcat(s', t);
      AcceptedStep(l, key, s + t[..|t| - 1], t[|t| - 1]);
      AcceptedStep(l, key, s' + t[..|t| - 1], t[|t| - 1]);
    }
  }

  /** No screened block among `t` is the one after `run`. */
  ghost predicate NothingFollows(l: Ledger, key: Option<Data>, run: seq<Block>, t: seq<Block>)
  {
    forall b :: b in t && Screened(l, b, key) ==> !Follows(run, b)
  }

  lemma {:induction false} NothingFollowsSnoc(l: Ledger, key: Option<Data>, run: seq<Block>, t: seq<Block>)
    requires t != []
    ensures NothingFollows(l, key, run, t)
            <==> && NothingFollows(l, key, run, t[..|t| - 1])
                 && !(Screened(l, t[|t| - 1], key) && Follows(run, t[|t| - 1]))
  {
    assert t == t[..|t| - 1] + [t[|t| - 1]];
  }

  /** Reading `t` after `s` accepts nothing more exactly when nothing in `t` follows the run of `s`. */
  lemma {:induction false} NothingNewIff(l: Ledger, key: Option<Data>, s: seq<Block>, t: seq<Block>)
    ensures Accepted(l, key, s + t) == Accepted(l, key, s) <==> NothingFollows(l, key, Accepted(l, key, s), t)
    decreases |t|
  {
    var run := Accepted(l, key, s);
    if t == [] {
      assert s + t == s;
    } else {
      hide NothingFollows, Accepted, Watch;
      var init, b := t[..|t| - 1], t[|t| - 1];
      NothingNewIff(l, key, s, init);
      SnocConcat(s, t);
      AcceptedStep(l, key, s + init, b);
      AcceptedGrows(l, key, s, init);
      AcceptedGrows(l, key, s + init, [b]);
      NothingFollowsSnoc(l, key, run, t);
      WatchKeepsIff(l, key, s, b);
    }
  }

  lemma {:induction false} WatchKeepsIff(l: Ledger, key: Option<Data>, s: seq<Block>, b: Block)
    ensures var run := Accepted(l, key, s);
            Watch(l, key, run, b) == run <==> !(Screened(l, b, key) && Follows(run, b))
  {
    AcceptedIsLinkedRun(l, key, s);
    NextIffFollows(l, key, Accepted(l, key, s), b, RecomputeHash(l, b));
  }

  // ---- one reader ----

  /** A reader of a channel reads on up to a place, or reads a part it has read before again, as it does
      after a failed pass or a restart. */
  datatype Move = Advance(to: nat) | Again(from: nat, until: nat)

  /** How far the reader has got. */
  function Reach(moves: seq<Move>): nat
  {
    if moves == [] then 0
    else
      match moves[|moves| - 1]
      case Advance(to) => to
      case Again(_, _) => Reach(moves[..|moves| - 1])
  }

  /** Every step starts from what has been read so far. */
  predicate Legal(channel: seq<Block>, moves: seq<Move>)
    ensures Legal(channel, moves) ==> Reach(moves) <= |channel|
  {
    moves == []
    || (var init := moves[..|moves| - 1];
        && Legal(channel, init)
        && match moves[|moves| - 1]
           case Advance(to) => Reach(init) <= to <= |channel|
           case Again(from, until) => from <= until <= Reach(init))
  }

  /** Everything the reader was served, in order, repeats included. */
  function Served(channel: seq<Block>, moves: seq<Move>): seq<Block>
    requires Legal(channel, moves)
  {
    if moves == [] then []
    else
      var init := moves[..|moves| - 1];
      Served(channel, init)
      + match moves[|moves| - 1]
        case Advance(to) => channel[Reach(init)..to]
        case Again(from, until) => channel[from..until]
  }

  /** After every step the reader has accepted what reading the channel once, that far, accepts. */
  ghost predicate AsReadOnce(l: Ledger, key: Option<Data>, channel: seq<Block>, moves: seq<Move>)
    requires Legal(channel, moves)
  {
    && Accepted(l, key, Served(channel, moves)) == Accepted(l, key, channel[..Reach(moves)])
    && (moves != [] ==> AsReadOnce(l, key, channel, moves[..|moves| - 1]))
  }

  /** Nothing read again follows the run accepted so far. */
  ghost predicate CleanRereads(l: Ledger, key: Option<Data>, channel: seq<Block>, moves: seq<Move>)
    requires Legal(channel, moves)
  {
    moves == []
    || (var init := moves[..|moves| - 1];
        && CleanRereads(l, key, channel, init)
        && match moves[|moves| - 1]
           case Advance(_) => true
           case Again(from, until) => NothingFollows(l, key, Accepted(l, key, channel[..Reach(init)]), channel[from..until]))
  }

  lemma {:induction false} ReadingOn(l: Ledger, key: Option<Data>, channel: seq<Block>, seen: seq<Block>, reach: nat, to: nat)
    requires reach <= to <= |channel| && Accepted(l, key, seen) == Accepted(l, key, channel[..reach])
    ensures Accepted(l, key, seen + channel[reach..to]) == Accepted(l, key, channel[..to])
  {
    hide Accepted;
    AcceptedDependsOnRun(l, key, seen, channel[..reach], channel[reach..to]);
    assert channel[..reach] + channel[reach..to] == channel[..to];
  }

  /** The last step of a reader that has so far accepted what reading once accepts. */
  lemma {:induction false} LastMove(l: Ledger, key: Option<Data>, channel: seq<Block>, moves: seq<Move>)
    requires Legal(channel, moves) && moves != []
    requires var init := moves[..|moves| - 1];
             Accepted(l, key, Served(channel, init)) == Accepted(l, key, channel[..Reach(init)])
    ensures var init := moves[..|moves| - 1];
            Accepted(l, key, Served(channel, moves)) == Accepted(l, key, channel[..Reach(moves)])
            <==> match moves[|moves| - 1]
                 case Advance(_) => true
                 case Again(from, until) => NothingFollows(l, key, Accepted(l, key, channel[..Reach(init)]), channel[from..until])
  {
    hide Accepted, NothingFollows;
    var init := moves[..|moves| - 1];
    var seen := Served(channel, init);
    match moves[|moves| - 1]
    case Advance(to) => ReadingOn(l, key, channel, seen, Reach(init), to);
    case Again(from, until) => NothingNewIff(l, key, seen, channel[from..until]);
  }

  lemma {:induction false} ReadOnceRun(l: Ledger, key: Option<Data>, channel: seq<Block>, moves: seq<Move>)
    requires Legal(channel, moves) && AsReadOnce(l, key, channel, moves)
    ensures Accepted(l, key, Served(channel, moves)) == Accepted(l, key, channel[..Reach(moves)])
  {
    hide Accepted;
  }

  /** Retries are harmless exactly when no block read again follows the run at that moment: a block that
      was passed over when it came early is taken when it is read again. */
  lemma {:induction false} RetriesHarmlessIff(l: Ledger, key: Option<Data>, channel: seq<Block>, moves: seq<Move>)
    requires Legal(channel, moves)
    ensures AsReadOnce(l, key, channel, moves) <==> CleanRereads(l, key, channel, moves)
    decreases |moves|
  {
    if moves == [] {
      assert channel[..0] == [];
    } else {
      hide Accepted, NothingFollows, Served, Reach;
      var init := moves[..|moves| - 1];
      RetriesHarmlessIff(l, key, channel, init);
      if AsReadOnce(l, key, channel, init) {
        ReadOnceRun(l, key, channel, init);
        LastMove(l, key, channel, moves);
      }
    }
  }

  // ---- two readers ----

  lemma {:induction false} ServedFromChannel(channel: seq<Block>, moves: seq<Move>)
    requires Legal(channel, moves)
    ensures forall b :: b in Served(channel, moves) ==> b in channel
    decreases |moves|
  {
    if moves != [] {
      ServedFromChannel(channel, moves[..|moves| - 1]);
    }
  }

  /** Two readers of one channel, each with its own clean retries, agree: the one that got less far has
      accepted a beginning of what the other has, and the same if both got equally far. A verifier's cache
      fed by a reader holds that reader's run, if no two blocks of the channel collide. */
  lemma {:induction false} ReadersAgree(l: Ledger, key: Option<Data>, channel: seq<Block>, r: seq<Move>, r': seq<Move>)
    requires Legal(channel, r) && Legal(channel, r') && Reach(r) <= Reach(r')
    requires CleanRereads(l, key, channel, r) && CleanRereads(l, key, channel, r')
    ensures Accepted(l, key, Served(channel, r)) <= Accepted(l, key, Served(channel, r'))
    ensures Reach(r) == Reach(r') ==> Accepted(l, key, Served(channel, r)) == Accepted(l, key, Served(channel, r'))
    ensures CollisionFreeOn(l, channel) ==> CacheAll(l, key, Served(channel, r')).run == Accepted(l, key, Served(channel, r'))
  {
    hide Accepted, Served, AsReadOnce, CleanRereads, CacheAll, CollisionFreeOn, Legal;
    RetriesHarmlessIff(l, key, channel, r);
    RetriesHarmlessIff(l, key, channel, r');
    ReadOnceRun(l, key, channel, r);
    ReadOnceRun(l, key, channel, r');
    AcceptedGrows(l, key, channel[..Reach(r)], channel[Reach(r)..Reach(r')]);
    assert channel[..Reach(r)] + channel[Reach(r)..Reach(r')] == channel[..Reach(r')];
    if CollisionFreeOn(l, channel) {
      CacheHoldsRun(l, key, channel, r');
    }
  }

  lemma {:induction false} CacheHoldsRun(l: Ledger, key: Option<Data>, channel: seq<Block>, moves: seq<Move>)
    requires Legal(channel, moves) && CollisionFreeOn(l, channel)
    ensures CacheAll(l, key, Served(channel, moves)).run == Accepted(l, key, Served(channel, moves))
  {
    ServedFromChannel(channel, moves);
    hide Served, Legal, Accepted, CacheAll;
    VerifierAgreesWithWatcher(l, key, Served(channel, moves));
  }

  // ---- which block holds an id ----

  ghost predicate TakenFrom(s: seq<Block>, channel: seq<Block>)
  {
    forall b :: b in s ==> b in channel
  }

  /** Two runs have the same contents wherever both have a block. */
  ghost predicate SameWhereBoth(xs: seq<Block>, ys: seq<Block>)
  {
    var n := Min(|xs|, |ys|);
    HashedAll(xs[..n]) == HashedAll(ys[..n])
  }

  /** Two blocks of the channel with different contents both follow some linked run of its blocks. */
  ghost predicate ForksAt(l: Ledger, key: Option<Data>, channel: seq<Block>, run: seq<Block>, x: Block, y: Block)
  {
    && TakenFrom(run, channel) && LinkedRun(l, key, run) && x in channel && y in channel
    && Screened(l, x, key) && Screened(l, y, key) && Follows(run, x) && Follows(run, y) && Hashed(x) != Hashed(y)
  }

  /** No two readers of the channel, whatever each is served, in whatever order and however often,
      disagree about which block holds an id. */
  ghost predicate NeverConflicting(l: Ledger, key: Option<Data>, channel: seq<Block>)
  {
    forall s, t :: TakenFrom(s, channel) && TakenFrom(t, channel) ==>
      SameWhereBoth(Accepted(l, key, s), Accepted(l, key, t))
  }

  /** Without a fork, runs with the same contents so far go on with the same contents. */
  lemma {:induction false} NoForkSameNext(
    l: Ledger, key: Option<Data>, channel: seq<Block>, xs: seq<Block>, ys: seq<Block>, m: nat)
    requires forall run, x, y :: !ForksAt(l, key, channel, run, x, y)
    requires LinkedRun(l, key, xs) && LinkedRun(l, key, ys) && TakenFrom(xs, channel) && TakenFrom(ys, channel)
    requires m < |xs| && m < |ys| && HashedAll(xs[..m]) == HashedAll(ys[..m])
    ensures Hashed(xs[m]) == Hashed(ys[m])
  {
    hide LinkedRun, Follows, HashedAll;
    LinkedRunTake(l, key, xs, m);
    LinkedRunTake(l, key, ys, m);
    FollowsByContents(l, key, xs[..m], ys[..m], ys[m]);
    assert xs[m] in xs && ys[m] in ys;
    assert TakenFrom(xs[..m], channel);
    assert !ForksAt(l, key, channel, xs[..m], xs[m], ys[m]);
  }

  lemma {:induction false} NoForkNoConflict(
    l: Ledger, key: Option<Data>, channel: seq<Block>, s: seq<Block>, t: seq<Block>, n: nat)
    requires forall run, x, y :: !ForksAt(l, key, channel, run, x, y)
    requires TakenFrom(s, channel) && TakenFrom(t, channel)
    requires n <= |Accepted(l, key, s)| && n <= |Accepted(l, key, t)|
    ensures HashedAll(Accepted(l, key, s)[..n]) == HashedAll(Accepted(l, key, t)[..n])
    decreases n
  {
    if n > 0 {
      AcceptedIsLinkedRun(l, key, s);
      AcceptedIsLinkedRun(l, key, t);
      var xs, ys, m := Accepted(l, key, s), Accepted(l, key, t), n - 1;
      NoForkNoConflict(l, key, channel, s, t, m);
      hide Accepted, LinkedRun, HashedAll, ForksAt;
      NoForkSameNext(l, key, channel, xs, ys, m);
      HashedAllSnoc(xs[..n]);
      HashedAllSnoc(ys[..n]);
      assert xs[..n][..m] == xs[..m] && ys[..n][..m] == ys[..m];
    }
  }

  /** A linked run is accepted as it is. */
  lemma {:induction false} LinkedRunIsAccepted(l: Ledger, key: Option<Data>, run: seq<Block>)
    requires LinkedRun(l, key, run)
    ensures Accepted(l, key, run) == run
    decreases |run|
  {
    if run != [] {
      var m := |run| - 1;
      LinkedRunTake(l, key, run, m);
      hide LinkedRun;
      LinkedRunIsAccepted(l, key, run[..m]);
      assert run == run[..m] + [run[m]];
      AcceptsNext(l, key, run[..m], run[..m], run[m]);
    }
  }

  lemma {:induction false} ForkConflicts(l: Ledger, key: Option<Data>, channel: seq<Block>, run: seq<Block>, x: Block, y: Block)
    requires ForksAt(l, key, channel, run, x, y)
    ensures TakenFrom(run + [x], channel) && TakenFrom(run + [y], channel)
    ensures !SameWhereBoth(Accepted(l, key, run + [x]), Accepted(l, key, run + [y]))
  {
    LinkedRunIsAccepted(l, key, run);
    hide Accepted;
    AcceptedStep(l, key, run, x);
    AcceptedStep(l, key, run, y);
    NextIffFollows(l, key, run, x, RecomputeHash(l, x));
    NextIffFollows(l, key, run, y, RecomputeHash(l, y));
    var n := |run| + 1;
    assert (run + [x])[..n] == run + [x] && (run + [y])[..n] == run + [y];
    assert HashedAll(run + [x])[|run|] == Hashed(x) && HashedAll(run + [y])[|run|] == Hashed(y);
  }

  /** Readers never disagree about which block holds an id exactly when the channel does not fork: no
      two of its blocks with different contents follow the same linked run. */
  lemma {:induction false} NoConflictIff(l: Ledger, key: Option<Data>, channel: seq<Block>)
    ensures NeverConflicting(l, key, channel) <==> forall run, x, y :: !ForksAt(l, key, channel, run, x, y)
  {
    hide ForksAt, TakenFrom, Accepted;
    if run, x, y :| ForksAt(l, key, channel, run, x, y) {
      ForkConflicts(l, key, channel, run, x, y);
    } else {
      forall s, t | TakenFrom(s, channel) && TakenFrom(t, channel)
        ensures SameWhereBoth(Accepted(l, key, s), Accepted(l, key, t))
      {
        NoForkNoConflict(l, key, channel, s, t, Min(|Accepted(l, key, s)|, |Accepted(l, key, t)|));
      }
    }
  }

  // ---- readers that disagree ----

  lemma {:induction false} AcceptsNext(l: Ledger, key: Option<Data>, s: seq<Block>, run: seq<Block>, b: Block)
    requires Accepted(l, key, s) == run && LinkedRun(l, key, run + [b])
    ensures Accepted(l, key, s + [b]) == run + [b]
  {
    LinkedRunTake(l, key, run + [b], |run|);
    assert (run + [b])[..|run|] == run && (run + [b])[|run|] == b;
    hide LinkedRun, Accepted;
    AcceptedStep(l, key, s, b);
    NextIffFollows(l, key, run, b, RecomputeHash(l, b));
  }

  lemma {:induction false} PassesOver(l: Ledger, key: Option<Data>, s: seq<Block>, run: seq<Block>, b: Block)
    requires Accepted(l, key, s) == run && b.header.blockId != GENESIS_BLOCK_ID + |run|
    ensures Accepted(l, key, s + [b]) == run
  {
    hide Accepted, Watch;
    AcceptedStep(l, key, s, b);
    WatchKeepsIff(l, key, s, b);
  }

  /** The early block is passed over until its parent is there. */
  lemma {:induction false} EarlyIsPassedOver(l: Ledger, key: Option<Data>, one: Block, two: Block, a: Block)
    requires LinkedRun(l, key, [one, two]) && a.header.blockId == GENESIS_BLOCK_ID + 2
    ensures Accepted(l, key, [one, a, two]) == [one, two]
  {
    LinkedRunTake(l, key, [one, two], 1);
    assert [one, two][..1] == [] + [one] && [one] + [two] == [one, two];
    hide LinkedRun;
    AcceptsNext(l, key, [], [], one);
    hide Accepted;
    assert [] + [one] == [one];
    PassesOver(l, key, [one], [one], a);
    AcceptsNext(l, key, [one] + [a], [one], two);
    assert [one] + [a] + [two] == [one, a, two];
  }

  lemma {:induction false} ThirdOf(l: Ledger, key: Option<Data>, one: Block, two: Block, a: Block)
    requires LinkedRun(l, key, [one, two, a])
    ensures LinkedRun(l, key, [one, two]) && [one, two] + [a] == [one, two, a]
    ensures two.header.blockId == GENESIS_BLOCK_ID + 1 && a.header.blockId == GENESIS_BLOCK_ID + 2
  {
    LinkedRunTake(l, key, [one, two, a], 2);
    assert [one, two, a][..2] == [one, two];
    assert [one, two, a][1] == two && [one, two, a][2] == a;
  }

  /** A retry can part two readers of one channel although no blocks collide. The channel serves the first
      block, then a third block early, then the second, then a competing third. Read once, the competitor
      is accepted. A watcher that cannot record the competitor ends its pass there, reads the slot again,
      and now accepts the early block instead. */
  lemma {:induction false} RetryPartsReaders(
    l: Ledger, key: Option<Data>, one: Block, two: Block, a: Block, b: Block, recorded: Block -> bool)
    requires LinkedRun(l, key, [one, two, a]) && LinkedRun(l, key, [one, two, b]) && !recorded(b)
    ensures Accepted(l, key, [one, a, two, b]) == [one, two, b]
    ensures Fails(l, key, recorded, Accepted(l, key, [one, a, two]), BlockMessage(b))
    ensures Accepted(l, key, [one, a, two] + [a, two, b]) == [one, two, a]
  {
    hide LinkedRun, Accepted;
    ThirdOf(l, key, one, two, a);
    ThirdOf(l, key, one, two, b);
    EarlyIsPassedOver(l, key, one, two, a);
    var s := [one, a, two];
    AcceptsNext(l, key, s, [one, two], b);
    assert s + [b] == [one, a, two, b];
    WouldBeNext(l, key, [one, two], b);
    AcceptsNext(l, key, s, [one, two], a);
    PassesOver(l, key, s + [a], [one, two, a], two);
    PassesOver(l, key, s + [a] + [two], [one, two, a], b);
    assert s + [a] + [two] + [b] == s + [a, two, b];
  }

  lemma {:induction false} WouldBeNext(l: Ledger, key: Option<Data>, run: seq<Block>, b: Block)
    requires LinkedRun(l, key, run + [b])
    ensures LinkOf(l, key, run, b).Some? && LinkOf(l, key, run, b).value.Next?
  {
    LinkedRunTake(l, key, run + [b], |run|);
    assert (run + [b])[..|run|] == run;
    NextIffFollows(l, key, run, b, RecomputeHash(l, b));
  }

  lemma {:induction false} ToyRun(t: nat)
    ensures LinkedRun(PermissiveLedger(), None, [ToyBlock(1, 0, 0), ToyBlock(2, 10, 0), ToyBlock(3, 20, t)])
  {
  }

  /** Such a channel exists. */
  lemma {:induction false} RetryExample()
    ensures var l := PermissiveLedger();
            var one, two, a, b := ToyBlock(1, 0, 0), ToyBlock(2, 10, 0), ToyBlock(3, 20, 0), ToyBlock(3, 20, 1);
            && CollisionFreeOn(l, [one, a, two, b]) && a != b
            && Accepted(l, None, [one, a, two, b]) == [one, two, b]
            && Accepted(l, None, [one, a, two] + [a, two, b]) == [one, two, a]
  {
    hide Accepted, LinkedRun;
    ToyRun(0);
    ToyRun(1);
    RetryPartsReaders(
      PermissiveLedger(), None, ToyBlock(1, 0, 0), ToyBlock(2, 10, 0), ToyBlock(3, 20, 0), ToyBlock(3, 20, 1), x => false);
  }
}
