/** The circuit's worklist over chained calls, and the call tree it walks
    (`lee/privacy_preserving_circuit/src/execution_state.rs`). */
module CallTrees {
  import opened Prelude
  import opened LedgerState
  import opened Programs
  import opened Execution

  /** A pending call with what its caller hands down. */
  datatype Frame = Frame(call: ChainedCall, caller: CallerData)

  /** The output is a proven, well-behaved execution of exactly this call. The accounts the caller
      listed for the call are not compared with those the program read. */
  ghost predicate Accepts(x: Crypto, frame: Frame, out: ProgramOutput)
  {
    && out.instructionData == frame.call.instructionData
    && x.verify(frame.call.programId, out)
    && out.selfProgramId == frame.call.programId
    && out.callerProgramId == frame.caller.programId
    && ExecutionVerdict(out.preStates, out.postStates, frame.call.programId).None?
  }

  ghost function Process(
    x: Crypto, ids: seq<InputAccountIdentity>, s: Exec, frame: Frame, out: ProgramOutput): Option<Exec>
  {
    if !Accepts(x, frame, out) then None
    else
      SyncUpTo(x, ids, s, frame.call.programId, frame.caller, frame.call.pdaSeeds, out.preStates, out.postStates, |out.preStates|)
  }

  /** What a processed call hands to the calls it makes. */
  function CallerAfter(frame: Frame, out: ProgramOutput): CallerData
  {
    CallerData(Some(frame.call.programId), frame.caller.authorizedAccounts + AuthorizedIn(out.preStates))
  }

  function ChildFrames(frame: Frame, out: ProgramOutput): (r: seq<Frame>)
    ensures |r| == |out.chainedCalls|
    ensures forall i :: 0 <= i < |r| ==> r[i] == Frame(out.chainedCalls[i], CallerAfter(frame, out))
  {
    seq(|out.chainedCalls|, i requires 0 <= i < |out.chainedCalls| => Frame(out.chainedCalls[i], CallerAfter(frame, out)))
  }

  /** The worklist: pop a call, consume the next output, push the calls it makes in front. */
  ghost function Work(
    x: Crypto, ids: seq<InputAccountIdentity>, s: Exec, stack: seq<Frame>, outputs: seq<ProgramOutput>, counter: nat): Option<Exec>
    decreases |outputs|
  {
    if stack == [] then (if outputs == [] then Some(s) else None)
    else if counter > MAX_NUMBER_CHAINED_CALLS || outputs == [] then None
    else
      match Process(x, ids, s, stack[0], outputs[0])
      case None => None
      case Some(t) => Work(x, ids, t, ChildFrames(stack[0], outputs[0]) + stack[1..], outputs[1..], counter + 1)
  }

  // ---- call trees ----

  /** A list of executed calls, each with the list of calls it made. */
  datatype Calls = NoCalls | Call(output: ProgramOutput, made: Calls, next: Calls)

  /** Outputs in the order a recursive execution produces them. */
  function Preorder(f: Calls): seq<ProgramOutput>
  {
    match f
    case NoCalls => []
    case Call(out, made, next) => [out] + Preorder(made) + Preorder(next)
  }

  /** The executed calls are, one for one, the calls in `frames`, recursively. */
  ghost predicate Matches(x: Crypto, f: Calls, frames: seq<Frame>)
  {
    match f
    case NoCalls => frames == []
    case Call(out, made, next) =>
      && frames != []
      && Accepts(x, frames[0], out)
      && Matches(x, made, ChildFrames(frames[0], out))
      && Matches(x, next, frames[1..])
  }

  /** Recursive execution: each call, then everything it called, then its next sibling. */
  ghost function Execute(x: Crypto, ids: seq<InputAccountIdentity>, s: Exec, f: Calls, frames: seq<Frame>): Option<Exec>
    requires Matches(x, f, frames)
    decreases f
  {
    match f
    case NoCalls => Some(s)
    case Call(out, made, next) =>
      match Process(x, ids, s, frames[0], out)
      case None => None
      case Some(t) =>
        match Execute(x, ids, t, made, ChildFrames(frames[0], out))
        case None => None
        case Some(u) => Execute(x, ids, u, next, frames[1..])
  }

  function Append(f: Calls, g: Calls): Calls
  {
    match f
    case NoCalls => g
    case Call(out, made, next) => Call(out, made, Append(next, g))
  }

  lemma {:induction false} AppendPreorder(f: Calls, g: Calls)
    ensures Preorder(Append(f, g)) == Preorder(f) + Preorder(g)
  {
    match f
    case NoCalls =>
    case Call(out, made, next) => AppendPreorder(next, g);
  }

  lemma {:induction false} AppendMatches(x: Crypto, f: Calls, g: Calls, fs: seq<Frame>, gs: seq<Frame>)
    requires Matches(x, f, fs) && Matches(x, g, gs)
    ensures Matches(x, Append(f, g), fs + gs)
  {
    hide Accepts;
    match f
    case NoCalls => assert fs + gs == gs;
    case Call(out, made, next) =>
      assert (fs + gs)[1..] == fs[1..] + gs;
      AppendMatches(x, next, g, fs[1..], gs);
  }

  lemma {:induction false} AppendExecutes(
    x: Crypto, ids: seq<InputAccountIdentity>, s: Exec, f: Calls, g: Calls, fs: seq<Frame>, gs: seq<Frame>)
    requires Matches(x, f, fs) && Matches(x, g, gs)
    ensures Matches(x, Append(f, g), fs + gs)
    ensures Execute(x, ids, s, Append(f, g), fs + gs)
            == match Execute(x, ids, s, f, fs) case None => None case Some(t) => Execute(x, ids, t, g, gs)
    decreases f
  {
    hide Process, Accepts;
    AppendMatches(x, f, g, fs, gs);
    match f
    case NoCalls => assert fs + gs == gs;
    case Call(out, made, next) =>
      assert (fs + gs)[1..] == fs[1..] + gs;
      match Process(x, ids, s, fs[0], out)
      case None =>
      case Some(t) =>
        match Execute(x, ids, t, made, ChildFrames(fs[0], out))
        case None =>
        case Some(u) => AppendExecutes(x, ids, u, next, g, fs[1..], gs);
  }

  /** Any executed calls for two stacks joined split into those for each. */
  lemma {:induction false} SplitMatches(
    x: Crypto, h: Calls, fs: seq<Frame>, gs: seq<Frame>) returns (f: Calls, g: Calls)
    requires Matches(x, h, fs + gs)
    ensures Matches(x, f, fs) && Matches(x, g, gs) && h == Append(f, g)
    decreases |fs|
  {
    hide Accepts;
    if fs == [] {
      assert fs + gs == gs;
      f, g := NoCalls, h;
    } else {
      assert (fs + gs)[1..] == fs[1..] + gs;
      var rest;
      rest, g := SplitMatches(x, h.next, fs[1..], gs);
      f := Call(h.output, h.made, rest);
    }
  }

  /** After its first output a tree continues with the calls made, then the next sibling. */
  lemma {:induction false} PreorderOfCall(f: Calls)
    requires f.Call?
    ensures Preorder(f) != [] && Preorder(f)[0] == f.output
    ensures Preorder(f)[1..] == Preorder(Append(f.made, f.next))
  {
    AppendPreorder(f.made, f.next);
    assert Preorder(f) == [f.output] + (Preorder(f.made) + Preorder(f.next));
  }

  /** Recursive execution one call at a time. */
  lemma {:induction false} ExecuteCall(x: Crypto, ids: seq<InputAccountIdentity>, s: Exec, f: Calls, frames: seq<Frame>)
    requires f.Call? && Matches(x, f, frames)
    ensures var pending := ChildFrames(frames[0], f.output) + frames[1..];
            && Matches(x, Append(f.made, f.next), pending)
            && Execute(x, ids, s, f, frames)
               == match Process(x, ids, s, frames[0], f.output)
                  case None => None
                  case Some(t) => Execute(x, ids, t, Append(f.made, f.next), pending)
  {
    hide Process, Accepts;
    var children, rest := ChildFrames(frames[0], f.output), frames[1..];
    AppendMatches(x, f.made, f.next, children, rest);
    match Process(x, ids, s, frames[0], f.output)
    case None =>
    case Some(t) => AppendExecutes(x, ids, t, f.made, f.next, children, rest);
  }

  predicate WithinLimit(outputs: seq<ProgramOutput>, counter: nat)
  {
    outputs == [] || counter + |outputs| <= MAX_NUMBER_CHAINED_CALLS + 1
  }

  /** What the worklist accepts is a call tree, executed recursively. */
  lemma {:induction false} WorklistFindsTree(
    x: Crypto, ids: seq<InputAccountIdentity>, s: Exec, stack: seq<Frame>, outputs: seq<ProgramOutput>, counter: nat) returns (f: Calls)
    requires Work(x, ids, s, stack, outputs, counter).Some?
    ensures Preorder(f) == outputs && WithinLimit(outputs, counter)
    ensures Matches(x, f, stack) && Execute(x, ids, s, f, stack) == Work(x, ids, s, stack, outputs, counter)
    decreases |outputs|
  {
    if stack == [] {
      f := NoCalls;
    } else {
      var t := Process(x, ids, s, stack[0], outputs[0]).value;
      var children, rest := ChildFrames(stack[0], outputs[0]), stack[1..];
      var h := WorklistFindsTree(x, ids, t, children + rest, outputs[1..], counter + 1);
      f := TreeFromRest(x, stack, outputs[0], h);
      hide Accepts, SyncUpTo, Execute, Preorder, Matches;
      ExecuteCall(x, ids, s, f, stack);
      PreorderOfCall(f);
    }
  }

  /** The executed calls after the first output, folded under the call that made them. */
  lemma {:induction false} TreeFromRest(x: Crypto, stack: seq<Frame>, out: ProgramOutput, h: Calls) returns (f: Calls)
    requires stack != [] && Accepts(x, stack[0], out)
    requires Matches(x, h, ChildFrames(stack[0], out) + stack[1..])
    ensures f.Call? && f.output == out && Append(f.made, f.next) == h
    ensures Matches(x, f, stack)
  {
    hide Accepts;
    var made, next := SplitMatches(x, h, ChildFrames(stack[0], out), stack[1..]);
    f := Call(out, made, next);
  }

  /** The worklist one call at a time. */
  lemma {:induction false} WorkCall(
    x: Crypto, ids: seq<InputAccountIdentity>, s: Exec, stack: seq<Frame>, outputs: seq<ProgramOutput>, counter: nat)
    requires stack != [] && outputs != [] && Accepts(x, stack[0], outputs[0]) && counter <= MAX_NUMBER_CHAINED_CALLS
    ensures Work(x, ids, s, stack, outputs, counter)
            == match Process(x, ids, s, stack[0], outputs[0])
               case None => None
               case Some(t) => Work(x, ids, t, ChildFrames(stack[0], outputs[0]) + stack[1..], outputs[1..], counter + 1)
  {
    hide Process;
  }

  lemma {:induction false} MatchedHead(x: Crypto, f: Calls, stack: seq<Frame>)
    requires Matches(x, f, stack)
    ensures if f.Call? then stack != [] && Accepts(x, stack[0], f.output) else stack == []
  {
    hide Accepts;
  }

  lemma {:induction false} NothingToRun(x: Crypto, ids: seq<InputAccountIdentity>, s: Exec, counter: nat)
    ensures Matches(x, NoCalls, [])
    ensures Work(x, ids, s, [], Preorder(NoCalls), counter) == Some(s) && Execute(x, ids, s, NoCalls, []) == Some(s)
  {
  }

  /** Every call tree within the limit is accepted by the worklist, with the same result. */
  lemma {:induction false} TreeRunsOnWorklist(
    x: Crypto, ids: seq<InputAccountIdentity>, s: Exec, f: Calls, stack: seq<Frame>, counter: nat)
    requires Matches(x, f, stack) && WithinLimit(Preorder(f), counter)
    ensures Work(x, ids, s, stack, Preorder(f), counter) == Execute(x, ids, s, f, stack)
    decreases |Preorder(f)|
  {
    hide Process, Accepts, Execute, Preorder, Work, Matches, Append, ChildFrames;
    MatchedHead(x, f, stack);
    if f.Call? {
      var outputs, rest := Preorder(f), Append(f.made, f.next);
      PreorderOfCall(f);
      ExecuteCall(x, ids, s, f, stack);
      WorkCall(x, ids, s, stack, outputs, counter);
      match Process(x, ids, s, stack[0], f.output)
      case None =>
      case Some(t) => TreeRunsOnWorklist(x, ids, t, rest, ChildFrames(stack[0], f.output) + stack[1..], counter + 1);
    } else {
      NothingToRun(x, ids, s, counter);
    }
  }

  /** The worklist refines recursion: an output list is accepted, with result `t`, exactly when it is
      the preorder of a call tree for the pending calls, of at most the allowed size, whose recursive
      execution gives `t`. */
  lemma {:induction false} WorklistIsRecursion(
    x: Crypto, ids: seq<InputAccountIdentity>, s: Exec, stack: seq<Frame>, outputs: seq<ProgramOutput>, t: Exec)
    ensures Work(x, ids, s, stack, outputs, 0) == Some(t)
            <==> exists f :: && Preorder(f) == outputs && |outputs| <= MAX_NUMBER_CHAINED_CALLS + 1
                             && Matches(x, f, stack) && Execute(x, ids, s, f, stack) == Some(t)
  {
    hide Process, Accepts, Work, Execute, Matches, Preorder;
    if Work(x, ids, s, stack, outputs, 0) == Some(t) {
      var f := WorklistFindsTree(x, ids, s, stack, outputs, 0);
    }
    if f :| && Preorder(f) == outputs && |outputs| <= MAX_NUMBER_CHAINED_CALLS + 1
            && Matches(x, f, stack) && Execute(x, ids, s, f, stack) == Some(t) {
      TreeRunsOnWorklist(x, ids, s, f, stack, 0);
    }
  }

  lemma {:induction false} PreorderThen(f: Calls, more: seq<ProgramOutput>)
    requires f.Call?
    ensures var all := Preorder(f) + more;
            all != [] && all[0] == f.output && all[1..] == Preorder(f.made) + (Preorder(f.next) + more)
  {
    HeadThen(f.output, Preorder(f.made), Preorder(f.next), more);
  }

  /** The call tree of an output list is unique: no list can be read as two different executions. */
  lemma {:induction false} TreeIsUnique(
    x: Crypto, f: Calls, g: Calls, frames: seq<Frame>, more: seq<ProgramOutput>, more': seq<ProgramOutput>)
    requires Matches(x, f, frames) && Matches(x, g, frames)
    requires Preorder(f) + more == Preorder(g) + more'
    ensures f == g && more == more'
    decreases f
  {
    hide Accepts;
    match f
    case NoCalls =>
      assert g.NoCalls?;
      assert Preorder(f) + more == more && Preorder(g) + more' == more';
    case Call(out, made, next) =>
      PreorderThen(f, more);
      PreorderThen(g, more');
      TreeIsUnique(x, made, g.made, ChildFrames(frames[0], out), Preorder(next) + more, Preorder(g.next) + more');
      TreeIsUnique(x, next, g.next, frames[1..], more, more');
  }

  // ---- authority ----

  /** A processed call. */
  datatype Executed = Executed(frame: Frame, output: ProgramOutput)

  /** A processed call and the chain of calls that led to it, outermost first. */
  datatype Visit = Visit(self: Executed, ancestors: seq<Executed>)

  /** The calls of a tree in preorder, with their ancestors. */
  function Visits(f: Calls, frames: seq<Frame>, ancestors: seq<Executed>): seq<Visit>
    decreases f
  {
    match f
    case NoCalls => []
    case Call(out, made, next) =>
      if frames == [] then []
      else
        var self := Executed(frames[0], out);
        [Visit(self, ancestors)] + Visits(made, ChildFrames(frames[0], out), ancestors + [self]) + Visits(next, frames[1..], ancestors)
  }

  /** The calls the worklist pops, in order. */
  function Popped(stack: seq<Frame>, outputs: seq<ProgramOutput>): seq<Executed>
    decreases |outputs|
  {
    if stack == [] || outputs == [] then []
    else [Executed(stack[0], outputs[0])] + Popped(ChildFrames(stack[0], outputs[0]) + stack[1..], outputs[1..])
  }

  function AuthorizedByAll(calls: seq<Executed>): set<AccountId>
  {
    if calls == [] then {} else AuthorizedByAll(calls[..|calls| - 1]) + AuthorizedIn(calls[|calls| - 1].output.preStates)
  }

  /** Pending siblings all carry what their common caller handed down. */
  ghost predicate Inherits(frames: seq<Frame>, ancestors: seq<Executed>)
  {
    forall i :: 0 <= i < |frames| ==>
      && frames[i].caller.authorizedAccounts == AuthorizedByAll(ancestors)
      && frames[i].caller.programId == (if ancestors == [] then None else Some(ancestors[|ancestors| - 1].frame.call.programId))
  }

  lemma {:induction false} ChildrenInherit(frames: seq<Frame>, ancestors: seq<Executed>, out: ProgramOutput)
    requires frames != [] && Inherits(frames, ancestors)
    ensures Inherits(ChildFrames(frames[0], out), ancestors + [Executed(frames[0], out)])
  {
    var all := ancestors + [Executed(frames[0], out)];
    assert all[..|all| - 1] == ancestors;
  }

  /** What a call inherits is exactly the union of what its ancestors presented as authorized: nothing
      of a sibling, nothing of a sibling's callees. */
  lemma {:induction false} InheritedIsFromAncestors(f: Calls, frames: seq<Frame>, ancestors: seq<Executed>, v: Visit)
    requires Inherits(frames, ancestors) && v in Visits(f, frames, ancestors)
    ensures v.self.frame.caller.authorizedAccounts == AuthorizedByAll(v.ancestors)
    ensures v.self.frame.caller.programId
            == if v.ancestors == [] then None else Some(v.ancestors[|v.ancestors| - 1].frame.call.programId)
    ensures ancestors <= v.ancestors
    decreases f
  {
    match f
    case Call(out, made, next) =>
      var self := Executed(frames[0], out);
      ChildrenInherit(frames, ancestors, out);
      if v in Visits(made, ChildFrames(frames[0], out), ancestors + [self]) {
        InheritedIsFromAncestors(made, ChildFrames(frames[0], out), ancestors + [self], v);
      } else if v in Visits(next, frames[1..], ancestors) {
        InheritedIsFromAncestors(next, frames[1..], ancestors, v);
      }
  }

  function Selves(vs: seq<Visit>): (r: seq<Executed>)
    ensures |r| == |vs|
    ensures forall i :: 0 <= i < |vs| ==> r[i] == vs[i].self
  {
    seq(|vs|, i requires 0 <= i < |vs| => vs[i].self)
  }

  lemma {:induction false} AppendVisits(
    f: Calls, g: Calls, fs: seq<Frame>, gs: seq<Frame>, ancestors: seq<Executed>, x: Crypto)
    requires Matches(x, f, fs) && Matches(x, g, gs)
    ensures Visits(Append(f, g), fs + gs, ancestors) == Visits(f, fs, ancestors) + Visits(g, gs, ancestors)
    decreases f
  {
    hide Accepts;
    match f
    case NoCalls => assert fs + gs == gs;
    case Call(out, made, next) =>
      assert (fs + gs)[1..] == fs[1..] + gs;
      AppendVisits(next, g, fs[1..], gs, ancestors, x);
      var self := Executed(fs[0], out);
      HeadThen(Visit(self, ancestors), Visits(made, ChildFrames(fs[0], out), ancestors + [self]),
               Visits(next, fs[1..], ancestors), Visits(g, gs, ancestors));
  }

  /** The list of calls does not depend on how ancestors are named. */
  lemma {:induction false} SelvesIgnoreAncestors(f: Calls, frames: seq<Frame>, a: seq<Executed>, b: seq<Executed>)
    ensures Selves(Visits(f, frames, a)) == Selves(Visits(f, frames, b))
    decreases f
  {
    match f
    case NoCalls =>
    case Call(out, made, next) =>
      if frames != [] {
        var self := Executed(frames[0], out);
        var kids := ChildFrames(frames[0], out);
        SelvesIgnoreAncestors(made, kids, a + [self], b + [self]);
        SelvesIgnoreAncestors(next, frames[1..], a, b);
        SelvesOfVisits(f, frames, a);
        SelvesOfVisits(f, frames, b);
      }
  }

  lemma {:induction false} SelvesOfVisits(f: Calls, frames: seq<Frame>, a: seq<Executed>)
    requires f.Call? && frames != []
    ensures var self := Executed(frames[0], f.output);
            Selves(Visits(f, frames, a))
            == [self] + Selves(Visits(f.made, ChildFrames(frames[0], f.output), a + [self])) + Selves(Visits(f.next, frames[1..], a))
  {
    var self := Executed(frames[0], f.output);
    var made, next := Visits(f.made, ChildFrames(frames[0], f.output), a + [self]), Visits(f.next, frames[1..], a);
    SelvesConcat([Visit(self, a)] + made, next);
    SelvesConcat([Visit(self, a)], made);
    assert Selves([Visit(self, a)]) == [self];
  }

  /** The worklist pops exactly the calls of the tree, in preorder, each with the caller data the
      recursion gives it. */
  lemma {:induction false} WorklistVisitsTree(x: Crypto, f: Calls, stack: seq<Frame>)
    requires Matches(x, f, stack)
    ensures Popped(stack, Preorder(f)) == Selves(Visits(f, stack, []))
    decreases |Preorder(f)|
  {
    hide Accepts;
    match f
    case NoCalls =>
    case Call(out, made, next) =>
      var children, rest := ChildFrames(stack[0], out), stack[1..];
      var self := Executed(stack[0], out);
      PreorderOfCall(f);
      AppendMatches(x, made, next, children, rest);
      WorklistVisitsTree(x, Append(made, next), children + rest);
      AppendVisits(made, next, children, rest, [], x);
      SelvesConcat(Visits(made, children, []), Visits(next, rest, []));
      SelvesIgnoreAncestors(made, children, [], [] + [self]);
      SelvesOfVisits(f, stack, []);
  }

  lemma {:induction false} SelvesConcat(us: seq<Visit>, vs: seq<Visit>)
    ensures Selves(us + vs) == Selves(us) + Selves(vs)
  {
  }
}
