/**
 The router when callbacks call it back. A call made from inside a callback is an activation of its own, in the same list as
 the threads' calls; the activation that made the callback does not move until the nested call has returned.
 */
module RouterNested {
  import opened Common
  import opened Filters
  import opened Router
  import opened RouterSafety
  import opened RouterProgress

  /** `parent[u]` is the activation whose callback made call u, if any; `calling` are the activations inside a callback. */
  datatype NState = NState(base: State, parent: seq<Option<nat>>, calling: set<nat>)

  datatype Act =
    | Go(t: nat)               // an activation takes its next step
    | Nest(t: nat, call: Call) // the callback that t is making calls the router

  ghost predicate Unfinished(s: NState, u: nat)
  {
    u < |s.base.threads| && s.base.threads[u].todo != []
  }

  ghost predicate ChildOf(s: NState, u: nat, t: nat)
  {
    u < |s.parent| && s.parent[u] == Some(t) && Unfinished(s, u)
  }

  /** A call made by t's callback has not returned. */
  ghost predicate Waiting(s: NState, t: nat)
  {
    exists u: nat :: ChildOf(s, u, t)
  }

  ghost predicate Can(s: NState, a: Act)
  {
    match a
    case Go(t) => Enabled(s.base, t) && !Waiting(s, t)
    case Nest(t, _) => t in s.calling && !Waiting(s, t)
  }

  ghost function Spawned(s: State, c: Call): State
  {
    s.(threads := s.threads + [Thread([c], Start, map[], 0, [])])
  }

  /** The step made a callback. */
  ghost predicate CallsBack(s: State, t: nat)
    requires Enabled(s, t)
  {
    s.threads[t].pc.At? && t < |Step(s, t).threads| && Step(s, t).threads[t].pc.At? && |Step(s, t).threads[t].reached| > |s.threads[t].reached|
  }

  ghost function Next(s: NState, a: Act): NState
    requires Can(s, a)
  {
    match a
    case Go(t) => NState(Step(s.base, t), s.parent, if CallsBack(s.base, t) then s.calling + {t} else s.calling - {t})
    case Nest(t, c) => NState(Spawned(s.base, c), s.parent + [Some(t)], s.calling)
  }

  ghost predicate Start0(s: NState)
  {
    && Init(s.base) && |s.parent| == |s.base.threads| && s.calling == {}
    && forall t | 0 <= t < |s.parent| :: s.parent[t].None?
  }

  ghost predicate Run(s: NState, acts: seq<Act>)
    decreases |acts|
  {
    acts == [] || (Can(s, acts[0]) && Run(Next(s, acts[0]), acts[1..]))
  }

  ghost function After(s: NState, acts: seq<Act>): NState
    requires Run(s, acts)
    decreases |acts|
  {
    if acts == [] then s else After(Next(s, acts[0]), acts[1..])
  }

  // ---------- invariants ----------

  /** Whoever waits for a nested call is still in its callback, for at most one such call at a time. */
  ghost predicate Nesting(s: NState)
  {
    && |s.parent| == |s.base.threads|
    && (forall t | t in s.calling :: t < |s.base.threads| && s.base.threads[t].pc.At?)
    && (forall u: nat, t: nat | ChildOf(s, u, t) :: t in s.calling)
    && (forall u: nat, v: nat, t: nat | ChildOf(s, u, t) && ChildOf(s, v, t) :: u == v)
    && (forall u: nat, t: nat | ChildOf(s, u, t) :: |s.base.threads[u].todo| == 1)
  }

  ghost predicate NInv(s: NState)
  {
    Inv(s.base) && Nesting(s)
  }

  lemma SpawnKeeps(s: State, c: Call)
    requires Inv(s)
    ensures Inv(Spawned(s, c))
  {
    var s', th := Spawned(s, c), Thread([c], Start, map[], 0, []);
    assert CountWeights(s'.threads) == CountWeights(s.threads) + [0];
    SumAppend(CountWeights(s.threads), 0);
    assert forall t | 0 <= t < |s.threads| :: s'.threads[t] == s.threads[t];
    assert ThreadShape(th) && CursorOk(th) && Registers(s', th.pc);
  }

  lemma NestingStep(s: NState, t: nat)
    requires NInv(s) && Can(s, Go(t))
    ensures Nesting(Next(s, Go(t)))
  {
    var s' := Next(s, Go(t));
    OthersUnchanged(s.base, t);
    TodoStep(s.base, t);
    assert forall u: nat | u < |s.base.threads| && Unfinished(s', u) :: Unfinished(s, u);
    assert forall u: nat, v: nat | ChildOf(s', u, v) :: ChildOf(s, u, v);
    hide Step, Inv, CallsBack;
    assert forall u: nat, v: nat | ChildOf(s', u, v) :: v != t;
  }

  /** A call is done with or is still the same. */
  lemma TodoStep(s: State, t: nat)
    requires Enabled(s, t)
    ensures t < |Step(s, t).threads|
    ensures var todo, todo' := s.threads[t].todo, Step(s, t).threads[t].todo; todo' == todo || todo' == todo[1..]
  {
  }

  /** An activation gets back to its first program point only by returning from a call. */
  lemma StartIsReturn(s: State, t: nat)
    requires Enabled(s, t) && t < |Step(s, t).threads| && Step(s, t).threads[t].pc.Start?
    ensures |Step(s, t).threads[t].todo| < |s.threads[t].todo|
  {
  }

  lemma NestingSpawn(s: NState, t: nat, c: Call)
    requires NInv(s) && Can(s, Nest(t, c))
    ensures Nesting(Next(s, Nest(t, c)))
  {
    var s' := Next(s, Nest(t, c));
    var n := |s.base.threads|;
    hide Inv;
    assert forall u: nat, v: nat | ChildOf(s', u, v) :: ChildOf(s, u, v) || (u == n && v == t);
  }

  lemma NInvKept(s: NState, a: Act)
    requires NInv(s) && Can(s, a)
    ensures NInv(Next(s, a))
  {
    match a
    case Go(t) =>
      InvKept(s.base, t);
      NestingStep(s, t);
    case Nest(t, c) =>
      SpawnKeeps(s.base, c);
      NestingSpawn(s, t, c);
  }

  lemma {:induction false} NInvAlways(s: NState, acts: seq<Act>)
    requires NInv(s) && Run(s, acts)
    ensures NInv(After(s, acts))
    decreases |acts|
  {
    if acts != [] {
      NInvKept(s, acts[0]);
      NInvAlways(Next(s, acts[0]), acts[1..]);
    }
  }

  lemma NInvInit(s: NState)
    requires Start0(s)
    ensures NInv(s)
  {
    InvInit(s.base);
  }

  // ---------- safety does not need the callbacks to stay away ----------

  /** With callbacks that call the router, to any depth, the counter is still exact and every finished broadcast, nested or not, reached exactly one snapshot's receivers, each once. */
  lemma SafeWithNesting(s0: NState, acts: seq<Act>)
    requires Start0(s0) && Run(s0, acts)
    ensures var s := After(s0, acts).base;
      && s.active == CountedThreads(s)
      && (forall t | 0 <= t < |s.threads| && s.threads[t].pc.Write? :: CountedThreads(s) == 0)
      && (forall i | 0 <= i < |s.log| :: ReachedUpTo(s.log[i].snap, s.log[i].sender, s.log[i].msg, s.log[i].reached, None))
  {
    NInvInit(s0);
    NInvAlways(s0, acts);
    var s := After(s0, acts).base;
    forall t | 0 <= t < |s.threads| && s.threads[t].pc.Write? ensures CountedThreads(s) == 0 {
      assert Registers(s, s.threads[t].pc);
    }
    forall i | 0 <= i < |s.log| ensures ReachedUpTo(s.log[i].snap, s.log[i].sender, s.log[i].msg, s.log[i].reached, None) {
      assert Exact(s.log[i]);
    }
  }

  /** An activation inside a callback holds neither mutex, so it makes no difference to a nested call that the mutexes are recursive. */
  lemma CallersHoldNothing(s: NState, t: nat)
    requires NInv(s) && t in s.calling
    ensures s.base.mapOwner != Some(t) && s.base.countOwner != Some(t)
  {
    assert !HoldsMap(s.base.threads[t].pc) && !HoldsCount(s.base.threads[t].pc);
  }

  // ---------- a nested register or unregister ----------

  /** While a nested call is unfinished its caller is counted. */
  lemma CallerCounted(s: NState, u: nat, t: nat)
    requires NInv(s) && ChildOf(s, u, t)
    ensures s.base.active >= 1 && t < |s.base.threads| && s.base.threads[t].pc.At?
  {
    CountedMember(s.base, t);
  }

  /** The nested call u, made by t, has not got past the spin loop. */
  ghost predicate BeforeWrite(s: NState, u: nat, t: nat, c: Call)
  {
    && ChildOf(s, u, t) && s.base.threads[u].todo == [c]
    && (s.base.threads[u].pc.Start? || s.base.threads[u].pc.Spin?)
  }

  lemma BeforeWriteStep(s: NState, a: Act, u: nat, t: nat, c: Call)
    requires NInv(s) && Can(s, a) && BeforeWrite(s, u, t, c) && !c.Broadcast?
    ensures BeforeWrite(Next(s, a), u, t, c) && |Next(s, a).base.threads| > t && Next(s, a).base.threads[t] == s.base.threads[t]
  {
    CallerCounted(s, u, t);
    if a.Go? {
      OthersUnchanged(s.base, a.t);
    }
  }

  lemma {:induction false} BeforeWriteAlways(s: NState, acts: seq<Act>, u: nat, t: nat, c: Call)
    requires NInv(s) && Run(s, acts) && BeforeWrite(s, u, t, c) && !c.Broadcast?
    ensures BeforeWrite(After(s, acts), u, t, c)
    ensures t < |s.base.threads| && t < |After(s, acts).base.threads| && After(s, acts).base.threads[t] == s.base.threads[t]
    decreases |acts|
  {
    CallerCounted(s, u, t);
    if acts != [] {
      BeforeWriteStep(s, acts[0], u, t, c);
      NInvKept(s, acts[0]);
      BeforeWriteAlways(Next(s, acts[0]), acts[1..], u, t, c);
    }
  }

  /**
   A register or unregister made from inside a callback never returns: after every run that leads up to it and under every
   continuation, it has not got past the spin loop, and the activation that made the callback has not moved.
   */
  lemma NestedRegisterBlocks(s0: NState, before: seq<Act>, t: nat, c: Call, after: seq<Act>)
    requires Start0(s0) && Run(s0, before) && Can(After(s0, before), Nest(t, c)) && !c.Broadcast?
    requires Run(Next(After(s0, before), Nest(t, c)), after)
    ensures var s := After(s0, before); var s' := After(Next(s, Nest(t, c)), after);
      var u := |s.base.threads|;
      && u < |s'.base.threads| && s'.base.threads[u].todo == [c] && (s'.base.threads[u].pc.Start? || s'.base.threads[u].pc.Spin?)
      && t < |s.base.threads| && s'.base.threads[t] == s.base.threads[t]
  {
    NInvInit(s0);
    NInvAlways(s0, before);
    var s := After(s0, before);
    NInvKept(s, Nest(t, c));
    BeforeWriteAlways(Next(s, Nest(t, c)), after, |s.base.threads|, t, c);
  }

  // ---------- a nested broadcast ----------

  /** It waits for a map lock whose holder spins. */
  ghost predicate Blocked(s: NState, u: nat)
    requires u < |s.base.threads|
  {
    && s.base.threads[u].pc.Start? && s.base.mapOwner.Some?
    && s.base.mapOwner.value < |s.base.threads| && s.base.threads[s.base.mapOwner.value].pc.Spin?
  }

  /** The call that u is making is over. */
  ghost predicate Returned(s: NState, s': NState, u: nat)
  {
    u < |s.base.threads| && u < |s'.base.threads| && |s'.base.threads[u].todo| < |s.base.threads[u].todo|
  }

  ghost predicate CanReturn(s: NState, u: nat)
  {
    exists acts :: Run(s, acts) && Returned(s, After(s, acts), u)
  }

  lemma BlockedStep(s: NState, a: Act, u: nat, t: nat)
    requires NInv(s) && Can(s, a) && ChildOf(s, u, t) && Blocked(s, u)
    ensures ChildOf(Next(s, a), u, t) && Blocked(Next(s, a), u) && Next(s, a).base.threads[u].todo == s.base.threads[u].todo
  {
    CallerCounted(s, u, t);
    if a.Go? {
      OthersUnchanged(s.base, a.t);
      LockSteps(s.base, a.t);
      var h := s.base.mapOwner.value;
      assert a.t == h ==> Step(s.base, h) == s.base;
    }
  }

  lemma {:induction false} BlockedAlways(s: NState, acts: seq<Act>, u: nat, t: nat)
    requires NInv(s) && Run(s, acts) && ChildOf(s, u, t) && Blocked(s, u)
    ensures !Returned(s, After(s, acts), u)
    decreases |acts|
  {
    if acts != [] {
      BlockedStep(s, acts[0], u, t);
      NInvKept(s, acts[0]);
      BlockedAlways(Next(s, acts[0]), acts[1..], u, t);
    }
  }

  ghost predicate Broadcasting(s: NState, u: nat)
  {
    Unfinished(s, u) && s.base.threads[u].todo[0].Broadcast? && !Waiting(s, u)
  }

  /** Whose step brings u nearer to its end: the holder of the counter's mutex, else the holder of a map lock u needs, else u. */
  ghost function Helper(s: NState, u: nat): nat
    requires u < |s.base.threads|
  {
    if s.base.countOwner.Some? then s.base.countOwner.value
    else if s.base.threads[u].pc.Start? && s.base.mapOwner.Some? then s.base.mapOwner.value
    else u
  }

  lemma HelperMoves(s: NState, u: nat)
    requires NInv(s) && Broadcasting(s, u) && !Blocked(s, u)
    ensures Can(s, Go(Helper(s, u))) && !Spinning(s.base, Helper(s, u))
  {
    var t := Helper(s, u);
    assert ThreadShape(s.base.threads[t]) && ThreadShape(s.base.threads[u]);
    assert HoldsMap(s.base.threads[t].pc) <==> s.base.mapOwner == Some(t);
    assert HoldsCount(s.base.threads[t].pc) <==> s.base.countOwner == Some(t);
    assert t != u ==> !s.base.threads[t].pc.At?;
  }

  lemma HelperKeeps(s: NState, u: nat)
    requires NInv(s) && Broadcasting(s, u) && !Blocked(s, u) && Can(s, Go(Helper(s, u))) && !Spinning(s.base, Helper(s, u))
    ensures var s' := Next(s, Go(Helper(s, u)));
      u < |s'.base.threads| && (Returned(s, s', u) || (Broadcasting(s', u) && !Blocked(s', u) && s'.base.threads[u].todo == s.base.threads[u].todo))
  {
    var t := Helper(s, u);
    var s' := Next(s, Go(t));
    OthersUnchanged(s.base, t);
    TodoStep(s.base, t);
    HelperUnblocked(s, u);
    hide Step, Inv, Blocked, CallsBack;
    assert forall v: nat, w: nat | ChildOf(s', v, w) :: ChildOf(s, v, w);
  }

  lemma HelperUnblocked(s: NState, u: nat)
    requires NInv(s) && Broadcasting(s, u) && !Blocked(s, u) && Can(s, Go(Helper(s, u))) && !Spinning(s.base, Helper(s, u))
    ensures u < |Next(s, Go(Helper(s, u))).base.threads|
    ensures Returned(s, Next(s, Go(Helper(s, u))), u) || !Blocked(Next(s, Go(Helper(s, u))), u)
  {
    var t := Helper(s, u);
    OthersUnchanged(s.base, t);
    LockSteps(s.base, t);
    HelperNeverSpins(s, u);
    if Step(s.base, t).threads[t].pc.Start? {
      StartIsReturn(s.base, t);
    }
    hide Step, Inv, CallsBack, Waiting;
  }

  lemma HelperNeverSpins(s: NState, u: nat)
    requires NInv(s) && Broadcasting(s, u) && !Blocked(s, u) && Can(s, Go(Helper(s, u))) && !Spinning(s.base, Helper(s, u))
    ensures var t := Helper(s, u); t < |Step(s.base, t).threads| && !Step(s.base, t).threads[t].pc.Spin?
  {
    var t := Helper(s, u);
    assert ThreadShape(s.base.threads[t]);
    assert HoldsMap(s.base.threads[t].pc) <==> s.base.mapOwner == Some(t);
    assert HoldsCount(s.base.threads[t].pc) <==> s.base.countOwner == Some(t);
  }

  lemma {:induction false} Returns(s: NState, u: nat) returns (acts: seq<Act>)
    requires NInv(s) && Broadcasting(s, u) && !Blocked(s, u)
    ensures Run(s, acts) && Returned(s, After(s, acts), u)
    decreases Points(s.base), Keys(s.base), Entries(s.base)
  {
    var t := Helper(s, u);
    HelperMoves(s, u);
    HelperKeeps(s, u);
    NInvKept(s, Go(t));
    StepsShrink(s.base, t);
    var s' := Next(s, Go(t));
    var rest: seq<Act> := [];
    if !Returned(s, s', u) {
      rest := Returns(s', u);
    }
    acts := [Go(t)] + rest;
    assert acts[1..] == rest;
  }

  /**
   A broadcast made from inside a callback and not itself waiting for one can return if and only if it is past taking the
   map lock, or the map lock is free or held by someone who does not spin.
   */
  lemma NestedBroadcastReturnsIff(s: NState, u: nat, t: nat)
    requires NInv(s) && ChildOf(s, u, t) && Broadcasting(s, u)
    ensures CanReturn(s, u) <==> !Blocked(s, u)
  {
    if Blocked(s, u) {
      forall acts | Run(s, acts) ensures !Returned(s, After(s, acts), u) {
        BlockedAlways(s, acts, u, t);
      }
    } else {
      var acts := Returns(s, u);
    }
  }

  // ---------- deeper nesting: the innermost call decides ----------

  lemma TodosShrink(s: NState, a: Act, u: nat)
    requires Can(s, a) && u < |s.base.threads|
    ensures u < |Next(s, a).base.threads| && |Next(s, a).base.threads[u].todo| <= |s.base.threads[u].todo|
    ensures |Next(s, a).base.threads[u].todo| < |s.base.threads[u].todo| ==> a == Go(u)
  {
    if a.Go? {
      OthersUnchanged(s.base, a.t);
      TodoStep(s.base, a.t);
      hide Step;
    }
  }

  lemma {:induction false} DoneStaysDone(s: NState, acts: seq<Act>, u: nat)
    requires Run(s, acts) && u < |s.base.threads| && !Unfinished(s, u)
    ensures !Unfinished(After(s, acts), u)
    decreases |acts|
  {
    if acts != [] {
      TodosShrink(s, acts[0], u);
      DoneStaysDone(Next(s, acts[0]), acts[1..], u);
    }
  }

  /** While the nested call u is unfinished, its caller t stays where it is and u is the only call t waits for. */
  lemma CallerStays(s: NState, a: Act, u: nat, t: nat)
    requires NInv(s) && Can(s, a) && ChildOf(s, u, t)
    ensures t < |s.base.threads| && t < |Next(s, a).base.threads| && Next(s, a).base.threads[t] == s.base.threads[t]
    ensures Unfinished(Next(s, a), u) ==> ChildOf(Next(s, a), u, t)
    ensures !Unfinished(Next(s, a), u) ==> !Waiting(Next(s, a), t)
  {
    var s' := Next(s, a);
    CallerCounted(s, u, t);
    TodosShrink(s, a, u);
    if a.Go? {
      OthersUnchanged(s.base, a.t);
      TodoStep(s.base, a.t);
      hide Step, Inv;
      assert forall v: nat, w: nat | ChildOf(s', v, w) :: ChildOf(s, v, w);
    }
  }

  lemma {:induction false} CallerWaits(s: NState, acts: seq<Act>, u: nat, t: nat)
    requires NInv(s) && Run(s, acts) && ChildOf(s, u, t) && Unfinished(After(s, acts), u)
    ensures !Returned(s, After(s, acts), t)
    decreases |acts|
  {
    if acts != [] {
      var s' := Next(s, acts[0]);
      CallerStays(s, acts[0], u, t);
      NInvKept(s, acts[0]);
      if Unfinished(s', u) {
        CallerWaits(s', acts[1..], u, t);
      } else {
        DoneStaysDone(s', acts[1..], u);
      }
    }
  }

  /** The part of a run up to the return of u. */
  lemma {:induction false} UpToReturn(s: NState, acts: seq<Act>, u: nat, t: nat) returns (pre: seq<Act>)
    requires NInv(s) && Run(s, acts) && ChildOf(s, u, t) && !Unfinished(After(s, acts), u)
    ensures Run(s, pre) && NInv(After(s, pre)) && !Waiting(After(s, pre), t)
    ensures t < |s.base.threads| && t < |After(s, pre).base.threads| && After(s, pre).base.threads[t] == s.base.threads[t]
    decreases |acts|
  {
    if acts == [] {
      assert false;
    } else {
      var s' := Next(s, acts[0]);
      CallerStays(s, acts[0], u, t);
      NInvKept(s, acts[0]);
      var rest: seq<Act> := [];
      if Unfinished(s', u) {
        rest := UpToReturn(s', acts[1..], u, t);
      }
      pre := [acts[0]] + rest;
      assert pre[1..] == rest;
    }
  }

  lemma {:induction false} RunsConcat(s: NState, a: seq<Act>, b: seq<Act>)
    requires Run(s, a) && Run(After(s, a), b)
    ensures Run(s, a + b) && After(s, a + b) == After(After(s, a), b)
    decreases |a|
  {
    if a == [] {
      assert a + b == b;
    } else {
      RunsConcat(Next(s, a[0]), a[1..], b);
      assert (a + b)[1..] == a[1..] + b;
    }
  }

  /** A broadcast whose callback waits for a nested call can return if and only if the nested call can. */
  lemma CallerReturnsIff(s: NState, u: nat, t: nat)
    requires NInv(s) && ChildOf(s, u, t)
    ensures CanReturn(s, t) <==> CanReturn(s, u)
  {
    CallerCounted(s, u, t);
    if CanReturn(s, t) {
      var acts :| Run(s, acts) && Returned(s, After(s, acts), t);
      if Unfinished(After(s, acts), u) {
        CallerWaits(s, acts, u, t);
      }
      KeepsThreads(s, acts);
      assert Returned(s, After(s, acts), u);
    }
    if CanReturn(s, u) {
      var acts :| Run(s, acts) && Returned(s, After(s, acts), u);
      var pre := UpToReturn(s, acts, u, t);
      var s' := After(s, pre);
      assert ThreadShape(s'.base.threads[t]) && s'.base.threads[t].pc.At?;
      var rest := Returns(s', t);
      RunsConcat(s, pre, rest);
      assert Returned(s, After(s, pre + rest), t);
    }
  }

  lemma {:induction false} KeepsThreads(s: NState, acts: seq<Act>)
    requires Run(s, acts)
    ensures |s.base.threads| <= |After(s, acts).base.threads|
    decreases |acts|
  {
    if acts != [] {
      if acts[0].Go? {
        OthersUnchanged(s.base, acts[0].t);
      }
      KeepsThreads(Next(s, acts[0]), acts[1..]);
    }
  }
}
