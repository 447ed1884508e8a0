/** Every run of a connection: nothing lost, nothing twice, no missed wakeup, and a shutdown that ends. */
module ConnectionSafety {
  import opened Common
  import opened Connection

  // ---------- invariants ----------

  /** The message the processor has taken from the queue and not yet handled. */
  function InHand(p: Side): seq<Msg>
  {
    if (p.pc.Flag? || p.pc.Unlock? || p.pc.Handle?) && p.msg.Some? then [p.msg.value] else []
  }

  /** The message the receiver has parsed and not yet queued, if it is of this lane. */
  function RxHolds(rx: RxPc, l: Lane): seq<Msg>
  {
    if (rx.Parsed? || rx.Pushing?) && LaneOf(rx.m) == l then [rx.m] else []
  }

  /** The receiver has queued a message of this lane and has not yet called Set(). */
  predicate Pending(rx: RxPc, l: Lane)
  {
    (rx.Pushed? && rx.lane == l) || (rx.Signal? && rx.lane == l)
  }

  predicate RxLocked(rx: RxPc, l: Lane)
  {
    (rx.Pushing? && LaneOf(rx.m) == l) || (rx.Pushed? && rx.lane == l)
  }

  /** The receiver has interrupted this lane's processor. */
  predicate RxInterrupted(rx: RxPc, l: Lane)
  {
    || rx.SetFast? || rx.SetSlow? || rx.JoinFast? || rx.JoinSlow? || rx.Deleted?
    || (rx.InterruptSlow? && l.Fast?)
  }

  /** The receiver has called Set() on this lane for the shutdown. */
  predicate RxReleased(rx: RxPc, l: Lane)
  {
    || rx.JoinFast? || rx.JoinSlow? || rx.Deleted?
    || (rx.SetSlow? && l.Fast?)
  }

  ghost predicate MutexOk(p: Side, rx: RxPc, l: Lane)
  {
    && (p.mutex.ByProcessor? <==> p.pc.Front? || p.pc.Pop? || p.pc.Flag? || p.pc.Unlock?)
    && (p.mutex.ByReceiver? <==> RxLocked(rx, l))
  }

  ghost predicate LocalOk(p: Side)
  {
    && (p.pc.Pop? ==> p.queue != [] && p.msg == Some(p.queue[0]))
    && (p.pc.Flag? || p.pc.Handle? || p.pc.Destroy? ==> p.msg.Some?)
    && (p.messageWaiting && !p.pc.Flag? ==> p.queue != [])
    && (p.pc.Wait? ==> !p.messageWaiting)
    && p.processed == if p.pc.Destroy? && p.msg.Some? then p.destroyed + [p.msg.value] else p.destroyed
  }

  /** A queued message that the processor will not look at unasked has its wakeup latched or on the way. */
  ghost predicate WakeupOk(p: Side, rx: RxPc, l: Lane)
  {
    && (p.pc.Unlock? && !p.messageWaiting ==> p.queue == [])
    && (p.pc.Top? || p.pc.Wait? || p.pc.Handle? || p.pc.Destroy? ==>
          !p.messageWaiting && p.queue != [] ==> p.event || Pending(rx, l))
  }

  ghost predicate ShutdownOk(p: Side, rx: RxPc, l: Lane)
  {
    && (p.interrupted <==> RxInterrupted(rx, l))
    && (p.pc.Exited? ==> p.interrupted)
    && (RxReleased(rx, l) && p.pc.Wait? ==> p.event)
  }

  ghost predicate Conserved(p: Side, rx: RxPc, l: Lane, all: seq<Msg>)
  {
    p.processed + InHand(p) + p.queue + RxHolds(rx, l) == all
  }

  ghost predicate SideOk(p: Side, rx: RxPc, l: Lane, all: seq<Msg>)
  {
    MutexOk(p, rx, l) && LocalOk(p) && WakeupOk(p, rx, l) && ShutdownOk(p, rx, l) && Conserved(p, rx, l, all)
  }

  ghost predicate Numbered(ms: seq<Msg>)
  {
    forall i | 0 <= i < |ms| :: ms[i].id == i
  }

  ghost predicate Joined(s: State)
  {
    && (s.rx.JoinSlow? || s.rx.Deleted? ==> s.fast.pc.Exited?)
    && (s.rx.Deleted? ==> s.slow.pc.Exited?)
  }

  ghost predicate Inv(s: State)
  {
    && SideOk(s.fast, s.rx, Fast, OfLane(s.arrived, Fast))
    && SideOk(s.slow, s.rx, Slow, OfLane(s.arrived, Slow))
    && Numbered(s.arrived) && Joined(s)
  }

  lemma SideOf(s: State, l: Lane)
    requires Inv(s)
    ensures SideOk(Lookup(s, l), s.rx, l, OfLane(s.arrived, l))
  {
  }

  // ---------- preservation ----------

  lemma ProcKeepsControl(p: Side, rx: RxPc, l: Lane)
    requires MutexOk(p, rx, l) && LocalOk(p) && ShutdownOk(p, rx, l) && ProcReady(p)
    ensures MutexOk(ProcStep(p), rx, l) && ShutdownOk(ProcStep(p), rx, l)
  {
  }

  lemma ProcKeepsLocal(p: Side)
    requires LocalOk(p) && ProcReady(p)
    ensures LocalOk(ProcStep(p))
  {
  }

  lemma ProcKeepsWakeup(p: Side, rx: RxPc, l: Lane)
    requires LocalOk(p) && WakeupOk(p, rx, l) && ProcReady(p)
    ensures WakeupOk(ProcStep(p), rx, l)
  {
  }

  /** Everything the processor has taken or could take. */
  ghost function Taken(p: Side): seq<Msg>
  {
    p.processed + InHand(p) + p.queue
  }

  lemma TakenKept(p: Side)
    requires LocalOk(p) && ProcReady(p)
    ensures Taken(ProcStep(p)) == Taken(p)
  {
    var q := ProcStep(p);
    if p.pc.Pop? {
      PopRegroups(p.processed, p.queue);
    } else if p.pc.Handle? {
      assert q.processed + InHand(q) == p.processed + InHand(p);
    } else {
      assert q.processed == p.processed && q.queue == p.queue && InHand(q) == InHand(p);
    }
  }

  lemma PopRegroups(done: seq<Msg>, queue: seq<Msg>)
    requires queue != []
    ensures done + [queue[0]] + queue[1..] == done + [] + queue
  {
  }

  lemma ProcConserves(p: Side, rx: RxPc, l: Lane, all: seq<Msg>)
    requires LocalOk(p) && Conserved(p, rx, l, all) && ProcReady(p)
    ensures Conserved(ProcStep(p), rx, l, all)
  {
    TakenKept(p);
  }

  lemma ProcKeeps(p: Side, rx: RxPc, l: Lane, all: seq<Msg>)
    requires SideOk(p, rx, l, all) && ProcReady(p)
    ensures SideOk(ProcStep(p), rx, l, all)
  {
    ProcKeepsControl(p, rx, l);
    ProcKeepsLocal(p);
    ProcKeepsWakeup(p, rx, l);
    ProcConserves(p, rx, l, all);
  }

  lemma RxKeepsControl(p: Side, rx: RxPc, l: Lane)
    requires MutexOk(p, rx, l) && ShutdownOk(p, rx, l)
    requires rx.Parsed? && LaneOf(rx.m) == l ==> p.mutex.Nobody?
    ensures MutexOk(RxOnLane(p, rx, l), RxNext(rx), l) && ShutdownOk(RxOnLane(p, rx, l), RxNext(rx), l)
  {
  }

  lemma RxKeepsLocal(p: Side, rx: RxPc, l: Lane)
    requires MutexOk(p, rx, l) && LocalOk(p)
    ensures LocalOk(RxOnLane(p, rx, l))
  {
  }

  lemma RxKeepsWakeup(p: Side, rx: RxPc, l: Lane)
    requires MutexOk(p, rx, l) && WakeupOk(p, rx, l)
    ensures WakeupOk(RxOnLane(p, rx, l), RxNext(rx), l)
  {
  }

  lemma RxConserves(p: Side, rx: RxPc, l: Lane, all: seq<Msg>)
    requires Conserved(p, rx, l, all)
    ensures Conserved(RxOnLane(p, rx, l), RxNext(rx), l, all)
  {
    var done := p.processed + InHand(p);
    if rx.Pushing? && LaneOf(rx.m) == l {
      assert done + (p.queue + [rx.m]) == done + p.queue + [rx.m];
    }
  }

  lemma RxKeeps(p: Side, rx: RxPc, l: Lane, all: seq<Msg>)
    requires SideOk(p, rx, l, all)
    requires rx.Parsed? && LaneOf(rx.m) == l ==> p.mutex.Nobody?
    ensures SideOk(RxOnLane(p, rx, l), RxNext(rx), l, all)
  {
    RxKeepsControl(p, rx, l);
    RxKeepsLocal(p, rx, l);
    RxKeepsWakeup(p, rx, l);
    RxConserves(p, rx, l, all);
  }

  lemma OfLaneAppend(ms: seq<Msg>, m: Msg, l: Lane)
    ensures OfLane(ms + [m], l) == OfLane(ms, l) + (if LaneOf(m) == l then [m] else [])
  {
    assert (ms + [m])[..|ms|] == ms;
  }

  lemma ArriveKeeps(p: Side, m: Msg, l: Lane, arrived: seq<Msg>)
    requires SideOk(p, Reading, l, OfLane(arrived, l))
    ensures SideOk(p, Parsed(m), l, OfLane(arrived + [m], l))
  {
    OfLaneAppend(arrived, m, l);
  }

  lemma CloseKeeps(p: Side, l: Lane, all: seq<Msg>)
    requires SideOk(p, Reading, l, all)
    ensures SideOk(p, InterruptFast, l, all)
  {
  }

  lemma OutsideKeepsInv(s: State, a: Action)
    requires Inv(s) && Enabled(s, a) && (a.Arrive? || a.Garbage? || a.Close?)
    ensures Inv(Step(s, a))
  {
    hide SideOk, OfLane;
    if a.Arrive? {
      var m := Msg(|s.arrived|, a.kind);
      ArriveKeeps(s.fast, m, Fast, s.arrived);
      ArriveKeeps(s.slow, m, Slow, s.arrived);
    } else if a.Close? {
      CloseKeeps(s.fast, Fast, OfLane(s.arrived, Fast));
      CloseKeeps(s.slow, Slow, OfLane(s.arrived, Slow));
    }
  }

  lemma ReceiverKeepsInv(s: State)
    requires Inv(s) && RxReady(s)
    ensures Inv(Step(s, Receiver))
  {
    RxKeeps(s.fast, s.rx, Fast, OfLane(s.arrived, Fast));
    RxKeeps(s.slow, s.rx, Slow, OfLane(s.arrived, Slow));
  }

  lemma ProcessorKeepsInv(s: State, l: Lane)
    requires Inv(s) && ProcReady(Lookup(s, l))
    ensures Inv(Step(s, Processor(l)))
  {
    ProcKeeps(Lookup(s, l), s.rx, l, OfLane(s.arrived, l));
  }

  lemma InvKept(s: State, a: Action)
    requires Inv(s) && Enabled(s, a)
    ensures Inv(Step(s, a))
  {
    match a
    case Receiver => ReceiverKeepsInv(s);
    case Processor(l) => ProcessorKeepsInv(s, l);
    case _ => OutsideKeepsInv(s, a);
  }

  lemma InvInit(s: State)
    requires Init(s)
    ensures Inv(s)
  {
  }

  lemma {:induction false} InvAlways(s: State, acts: seq<Action>)
    requires Inv(s) && Run(s, acts)
    ensures Inv(Exec(s, acts))
    decreases |acts|
  {
    if acts != [] {
      InvKept(s, acts[0]);
      InvAlways(Step(s, acts[0]), acts[1..]);
    }
  }

  // ---------- conservation and order ----------

  /** The kinds that the slow processor is for. */
  function SlowKinds(): Msg -> bool
  {
    (m: Msg) => m.kind == Status || m.kind == EventLog
  }

  /** The kinds that the fast processor is for. */
  function FastKinds(): Msg -> bool
  {
    (m: Msg) => m.kind == Registration || m.kind == Subscribe || m.kind == Config || m.kind == Other
  }

  function Same(): Msg -> Msg
  {
    (m: Msg) => m
  }

  /** By kind: the slow lane is status and event log, the fast lane is the rest. */
  lemma {:induction false} LanePicks(ms: seq<Msg>)
    ensures Picks(ms, SlowKinds(), Same(), OfLane(ms, Slow))
    ensures Picks(ms, FastKinds(), Same(), OfLane(ms, Fast))
  {
    if ms == [] {
      PicksNothing(SlowKinds(), Same());
      PicksNothing(FastKinds(), Same());
    } else {
      var init, m := ms[..|ms| - 1], ms[|ms| - 1];
      assert ms == init + [m];
      LanePicks(init);
      PicksMore(init, SlowKinds(), Same(), OfLane(init, Slow), m);
      PicksMore(init, FastKinds(), Same(), OfLane(init, Fast), m);
      hide Picks;
    }
  }

  /** What a side has processed, holds in hand and has queued, and what the receiver is about to queue for it. */
  function Held(s: State, l: Lane): seq<Msg>
  {
    var p := Lookup(s, l);
    p.processed + InHand(p) + p.queue + RxHolds(s.rx, l)
  }

  lemma HeldIsLane(s0: State, acts: seq<Action>, l: Lane)
    requires Init(s0) && Run(s0, acts)
    ensures Held(Exec(s0, acts), l) == OfLane(Exec(s0, acts).arrived, l)
  {
    InvInit(s0);
    InvAlways(s0, acts);
    SideOf(Exec(s0, acts), l);
  }

  /**
   In every state of every run, what the slow side has processed, holds in hand, has queued and is about to get is exactly
   the status and event log messages that have arrived, in order of arrival; and what the fast side has is exactly the
   registrations, subscriptions, config messages and other messages.
   */
  lemma QueuesConserve(s0: State, acts: seq<Action>)
    requires Init(s0) && Run(s0, acts)
    ensures var s := Exec(s0, acts);
      && Picks(s.arrived, SlowKinds(), Same(), Held(s, Slow))
      && Picks(s.arrived, FastKinds(), Same(), Held(s, Fast))
  {
    HeldIsLane(s0, acts, Slow);
    HeldIsLane(s0, acts, Fast);
    LanePicks(Exec(s0, acts).arrived);
    hide Picks, Held;
  }

  ghost predicate IdsIncrease(ms: seq<Msg>)
  {
    forall i, j | 0 <= i < j < |ms| :: ms[i].id < ms[j].id
  }

  lemma {:induction false} LaneIdsIncrease(ms: seq<Msg>, l: Lane)
    requires Numbered(ms)
    ensures IdsIncrease(OfLane(ms, l))
    ensures forall i | 0 <= i < |OfLane(ms, l)| :: OfLane(ms, l)[i].id < |ms| && LaneOf(OfLane(ms, l)[i]) == l
  {
    if ms != [] {
      LaneIdsIncrease(ms[..|ms| - 1], l);
    }
  }

  /** A prefix of an increasing list of one lane's messages. */
  lemma PrefixIncreases(part: seq<Msg>, rest: seq<Msg>, l: Lane)
    requires IdsIncrease(part + rest) && forall i | 0 <= i < |part + rest| :: LaneOf((part + rest)[i]) == l
    ensures IdsIncrease(part) && forall i | 0 <= i < |part| :: LaneOf(part[i]) == l
  {
    forall i | 0 <= i < |part| ensures part[i] == (part + rest)[i] {
    }
  }

  /** Each lane has its own kinds. */
  predicate KindOnLane(m: Msg, l: Lane)
  {
    if l.Slow? then m.kind == Status || m.kind == EventLog
    else m.kind == Registration || m.kind == Subscribe || m.kind == Config || m.kind == Other
  }

  lemma LaneIsKind(ms: seq<Msg>, l: Lane)
    requires forall i | 0 <= i < |ms| :: LaneOf(ms[i]) == l
    ensures forall i | 0 <= i < |ms| :: KindOnLane(ms[i], l)
  {
  }

  /** No message is handled twice, destroyed twice, or handled on the wrong thread; and only handled messages are destroyed. */
  lemma HandledOnce(s0: State, acts: seq<Action>, l: Lane)
    requires Init(s0) && Run(s0, acts)
    ensures var p := Lookup(Exec(s0, acts), l);
      && IdsIncrease(p.processed) && IdsIncrease(p.destroyed)
      && p.destroyed <= p.processed && |p.processed| <= |p.destroyed| + 1
      && forall i | 0 <= i < |p.processed| :: KindOnLane(p.processed[i], l)
  {
    InvInit(s0);
    InvAlways(s0, acts);
    SideHandledOnce(Exec(s0, acts), l);
    hide Inv, Init, Run, Exec, IdsIncrease, LaneOf, KindOnLane;
    LaneIsKind(Lookup(Exec(s0, acts), l).processed, l);
  }

  lemma DestroyedAfterHandled(p: Side)
    requires LocalOk(p)
    ensures p.destroyed <= p.processed && |p.processed| <= |p.destroyed| + 1
    ensures p.destroyed + p.processed[|p.destroyed|..] == p.processed
  {
  }

  lemma SideHandledOnce(s: State, l: Lane)
    requires Inv(s)
    ensures var p := Lookup(s, l);
      && IdsIncrease(p.processed) && IdsIncrease(p.destroyed)
      && p.destroyed <= p.processed && |p.processed| <= |p.destroyed| + 1
      && forall i | 0 <= i < |p.processed| :: LaneOf(p.processed[i]) == l
  {
    SideOf(s, l);
    LaneIdsIncrease(s.arrived, l);
    PartsIncrease(Lookup(s, l), s.rx, l, OfLane(s.arrived, l));
  }

  lemma PartsIncrease(p: Side, rx: RxPc, l: Lane, all: seq<Msg>)
    requires LocalOk(p) && Conserved(p, rx, l, all) && IdsIncrease(all) && forall i | 0 <= i < |all| :: LaneOf(all[i]) == l
    ensures IdsIncrease(p.processed) && IdsIncrease(p.destroyed)
    ensures p.destroyed <= p.processed && |p.processed| <= |p.destroyed| + 1
    ensures forall i | 0 <= i < |p.processed| :: LaneOf(p.processed[i]) == l
  {
    DestroyedAfterHandled(p);
    var rest := InHand(p) + p.queue + RxHolds(rx, l);
    assert p.processed + rest == all;
    hide LocalOk, IdsIncrease, LaneOf, InHand, RxHolds;
    PrefixIncreases(p.processed, rest, l);
    PrefixIncreases(p.destroyed, p.processed[|p.destroyed|..], l);
  }

  // ---------- no lost wakeup ----------

  /** A processor about to sleep on a non-empty queue has its event latched, or the receiver is about to latch it. */
  lemma NoLostWakeup(s0: State, acts: seq<Action>, l: Lane)
    requires Init(s0) && Run(s0, acts)
    ensures var s := Exec(s0, acts); var p := Lookup(s, l);
      p.pc.Wait? && p.queue != [] ==> p.event || Pending(s.rx, l)
  {
    InvInit(s0);
    InvAlways(s0, acts);
    SideOf(Exec(s0, acts), l);
  }

  /** If a connection is idle, with the receiver in recv() and no processor able to move, every message of its kinds has been handled, in order, and destroyed. */
  lemma IdleMeansHandled(s0: State, acts: seq<Action>, l: Lane)
    requires Init(s0) && Run(s0, acts)
    requires Exec(s0, acts).rx.Reading? && !ProcReady(Lookup(Exec(s0, acts), l))
    ensures var s := Exec(s0, acts); var p := Lookup(s, l);
      && p.queue == [] && p.destroyed == p.processed
      && Picks(s.arrived, if l.Slow? then SlowKinds() else FastKinds(), Same(), p.processed)
  {
    InvInit(s0);
    InvAlways(s0, acts);
    var s := Exec(s0, acts);
    SideOf(s, l);
    IdleSide(Lookup(s, l), l, OfLane(s.arrived, l));
    LanePicks(s.arrived);
    hide Picks;
  }

  lemma IdleSide(p: Side, l: Lane, all: seq<Msg>)
    requires SideOk(p, Reading, l, all) && !ProcReady(p)
    ensures p.queue == [] && p.destroyed == p.processed == all
  {
    assert p.pc.Wait? && InHand(p) == [];
  }

  // ---------- clean shutdown ----------

  ghost function ProcRank(pc: ProcPc): nat
  {
    match pc
    case Exited => 0
    case Top => 1
    case Destroy => 2
    case Handle => 3
    case Unlock => 4
    case Flag => 5
    case Pop => 6
    case Front => 7
    case Lock => 8
    case Wait => 9
  }

  ghost function RxRank(rx: RxPc): nat
  {
    match rx
    case Deleted => 0
    case JoinSlow => 1
    case JoinFast => 2
    case SetSlow => 3
    case SetFast => 4
    case _ => 5
  }

  /** Both processors have been told to stop. */
  predicate Stopping(s: State)
  {
    s.rx.SetFast? || s.rx.SetSlow? || s.rx.JoinFast? || s.rx.JoinSlow? || s.rx.Deleted?
  }

  ghost function StepsLeft(s: State): nat
  {
    RxRank(s.rx) + ProcRank(s.fast.pc) + ProcRank(s.slow.pc)
  }

  lemma StepsLeftBound(s: State)
    requires Stopping(s)
    ensures StepsLeft(s) <= 22
  {
  }

  lemma InterruptedSideShrinks(p: Side)
    requires p.interrupted && ProcReady(p)
    ensures ProcRank(ProcStep(p).pc) < ProcRank(p.pc)
  {
  }

  lemma StoppingShrinks(s: State, a: Action)
    requires s.fast.interrupted && s.slow.interrupted && Stopping(s) && Enabled(s, a)
    ensures Stopping(Step(s, a)) && StepsLeft(Step(s, a)) < StepsLeft(s)
  {
    if a.Processor? {
      InterruptedSideShrinks(Lookup(s, a.lane));
    }
  }

  /** While the object still exists, the receiver can move or a processor it has to join can. */
  lemma StoppingMoves(s: State) returns (a: Action)
    requires Inv(s) && Stopping(s) && !s.rx.Deleted?
    ensures Enabled(s, a)
  {
    if RxReady(s) {
      a := Receiver;
    } else if s.rx.JoinFast? {
      a := Processor(Fast);
    } else {
      a := Processor(Slow);
    }
  }

  /** Shutdown is bounded: once both processors are interrupted, no run takes more than StepsLeft steps. */
  lemma {:induction false} ShutdownBounded(s: State, acts: seq<Action>)
    requires Inv(s) && Stopping(s) && Run(s, acts)
    ensures |acts| <= StepsLeft(s)
    ensures StepsLeft(Exec(s, acts)) + |acts| <= StepsLeft(s)
    decreases |acts|
  {
    if acts != [] {
      StoppingShrinks(s, acts[0]);
      InvKept(s, acts[0]);
      ShutdownBounded(Step(s, acts[0]), acts[1..]);
    }
  }

  lemma {:induction false} StoppingStays(s: State, acts: seq<Action>)
    requires Inv(s) && Stopping(s) && Run(s, acts)
    ensures Stopping(Exec(s, acts))
    decreases |acts|
  {
    if acts != [] {
      StoppingShrinks(s, acts[0]);
      InvKept(s, acts[0]);
      StoppingStays(Step(s, acts[0]), acts[1..]);
    }
  }

  ghost predicate Stuck(s: State)
  {
    forall a :: !Enabled(s, a)
  }

  lemma StuckMeansDeleted(s: State)
    requires Inv(s) && Stopping(s) && Stuck(s)
    ensures s.rx.Deleted? && s.fast.pc.Exited? && s.slow.pc.Exited?
  {
    if !s.rx.Deleted? {
      var a := StoppingMoves(s);
      assert false;
    }
  }

  lemma ShutdownEnds(mid: State, after: seq<Action>)
    requires Inv(mid) && Stopping(mid) && Run(mid, after)
    ensures var s := Exec(mid, after); Stuck(s) ==> s.rx.Deleted? && s.fast.pc.Exited? && s.slow.pc.Exited?
  {
    InvAlways(mid, after);
    StoppingStays(mid, after);
    var s := Exec(mid, after);
    if Stuck(s) {
      StuckMeansDeleted(s);
    }
  }

  /**
   Both joins return: once both interrupts have been requested, every continuation of every run stops within 22 steps, and
   where it can go no further the connection has been deleted and both processors have exited.
   */
  lemma JoinsReturn(s0: State, before: seq<Action>, mid: State, after: seq<Action>)
    requires Init(s0) && Run(s0, before) && mid == Exec(s0, before) && Stopping(mid) && Run(mid, after)
    ensures |after| <= 22
    ensures var s := Exec(mid, after); Stuck(s) ==> s.rx.Deleted? && s.fast.pc.Exited? && s.slow.pc.Exited?
  {
    hide *;
    InvInit(s0);
    InvAlways(s0, before);
    ShutdownBounded(mid, after);
    StepsLeftBound(mid);
    ShutdownEnds(mid, after);
  }

  /** Messages the interrupted processor may still handle: those of its current iteration. */
  function MayHandle(p: Side): nat
  {
    if p.pc.Top? || p.pc.Destroy? || p.pc.Exited? then 0 else 1
  }

  lemma InterruptedStep(s: State, a: Action, l: Lane)
    requires Enabled(s, a) && Lookup(s, l).interrupted
    ensures var p, q := Lookup(s, l), Lookup(Step(s, a), l);
      q.interrupted && |q.processed| + MayHandle(q) <= |p.processed| + MayHandle(p)
  {
    if a.Processor? {
      if a.lane == l {
        InterruptedProcStep(Lookup(s, l));
      }
      hide ProcStep, MayHandle;
    } else if a.Receiver? {
      InterruptedRxStep(Lookup(s, l), s.rx, l);
      hide RxOnLane, MayHandle;
    }
  }

  lemma InterruptedProcStep(p: Side)
    requires ProcReady(p) && p.interrupted
    ensures var q := ProcStep(p); q.interrupted && |q.processed| + MayHandle(q) <= |p.processed| + MayHandle(p)
  {
  }

  lemma InterruptedRxStep(p: Side, rx: RxPc, l: Lane)
    requires p.interrupted
    ensures var q := RxOnLane(p, rx, l); q.interrupted && |q.processed| + MayHandle(q) == |p.processed| + MayHandle(p)
  {
  }

  lemma {:induction false} InterruptedHandlesAtMostOne(s: State, acts: seq<Action>, l: Lane)
    requires Run(s, acts) && Lookup(s, l).interrupted
    ensures Lookup(Exec(s, acts), l).interrupted
    ensures |Lookup(Exec(s, acts), l).processed| + MayHandle(Lookup(Exec(s, acts), l)) <= |Lookup(s, l).processed| + MayHandle(Lookup(s, l))
    ensures |Lookup(Exec(s, acts), l).processed| <= |Lookup(s, l).processed| + 1
    decreases |acts|
  {
    if acts != [] {
      InterruptedStep(s, acts[0], l);
      InterruptedHandlesAtMostOne(Step(s, acts[0]), acts[1..], l);
    }
  }
}
